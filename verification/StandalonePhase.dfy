/**
 The standalone part of a restart run: everything is stopped and removed last to first, then created
 and started first to last, so that no container runs without the ones it depends on.
 */
module StandalonePhase {
  import opened Wrappers
  import opened DockerTypes
  import opened Strings
  import opened Settings
  import opened Deps
  import opened Host
  import opened RestartTypes
  import opened Results
  import opened Recreate

  // ---------- Results ----------

  function StandaloneRestartResult(cfg: UpdaterConfig, c: ContainerWithDeps, plan: Plan): ResourceResult {
    ResourceResult(plan.cnt.id, c.name, ResourceType.Container, Checked, false, false, plan.matched,
                   cfg.normalize(plan.newRef), NoError)
  }

  function FailedResult(cfg: UpdaterConfig, c: ContainerWithDeps, plan: Plan, error: ResultError): ResourceResult {
    StandaloneRestartResult(cfg, c, plan).(status := Failed, error := error)
  }

  /** A replaced container counts as restarted if only its dependencies changed, else as updated. */
  function AppliedResult(cfg: UpdaterConfig, c: ContainerWithDeps, plan: Plan): ResourceResult {
    StandaloneRestartResult(cfg, c, plan)
    .(status := if plan.implicit then Restarted else Updated, updateApplied := true, updateAvailable := !plan.implicit)
  }

  predicate IsStandaloneResult(cfg: UpdaterConfig, c: ContainerWithDeps, plan: Plan, r: ResourceResult) {
    r == FailedResult(cfg, c, plan, r.error) || r == AppliedResult(cfg, c, plan)
  }

  // ---------- Traces in blocks, one per candidate ----------

  /** Blocks of calls, first to last. */
  ghost function Join(blocks: seq<seq<Op>>): seq<Op> {
    if blocks == [] then [] else Join(blocks[..|blocks| - 1]) + blocks[|blocks| - 1]
  }

  /** Blocks of calls, last to first. */
  ghost function JoinBack(blocks: seq<seq<Op>>): seq<Op> {
    if blocks == [] then [] else JoinBack(blocks[1..]) + blocks[0]
  }

  /** A stop call for the container, and its removal unless the stop failed. */
  predicate IsStopBlock(owner: Name, id: string, block: seq<Op>) {
    block == [Op.Stop(owner, id)] || block == [Op.Stop(owner, id), Op.Remove(owner, id, false)]
  }

  // ---------- The host's containers ----------

  /** Under the name of the container it replaces, with its host configuration, on the same networks, and with its
      labels, kept or refreshed. */
  ghost predicate TakesPlace(cfg: UpdaterConfig, recentAPI: bool, plan: Plan, ref: string, c: Container) {
    plan.inspect.Some? ==>
      var was := plan.inspect.value;
      && (ContainerName(was) != "" ==> c.name == ContainerName(was))
      && HasSuccessorLabels(cfg, was, ref, c)
      && KeepsHostConfig(was, c.hostConfig) && KeepsNetworks(was, recentAPI, c.endpoints)
  }

  /** A container in another's place depends on the same names, given that refreshing labels keeps the depends-on
      label and that no network is named like a shared one. */
  lemma DependsOnTheSame(cfg: UpdaterConfig, recentAPI: bool, plan: Plan, ref: string, c: Container, dep: Name)
    requires TakesPlace(cfg, recentAPI, plan, ref, c) && plan.inspect.Some?
    requires var labels := InspectLabels(plan.inspect.value);
      var refreshed := cfg.refreshLabels(labels, ref);
      && (DEPENDS_ON_LABEL in refreshed <==> DEPENDS_ON_LABEL in labels)
      && (DEPENDS_ON_LABEL in labels ==> refreshed[DEPENDS_ON_LABEL] == labels[DEPENDS_ON_LABEL])
    requires forall n :: n in plan.inspect.value.networks ==> !("container:" <= n)
    ensures SettingsName(c.hostConfig, c.config.labels, dep) <==>
            SettingsName(plan.inspect.value.hostConfig, InspectLabels(plan.inspect.value), dep)
  {
    var was := plan.inspect.value;
    hide LinkNames, TextNames, KeepsNetworks, ContainerName, TrimSpace;
    if was.hostConfig.Some? {
      SharedModeIsSolid(was.hostConfig.value.networkMode, dep);
    }
    if c.hostConfig.Some? && c.hostConfig.value.networkMode == "container:" + dep {
      assert "container:" <= c.hostConfig.value.networkMode;
    }
  }

  lemma SharedModeIsSolid(mode: string, dep: Name)
    ensures TrimSpace(mode) == "" ==> mode != "container:" + dep
  {
    var lead, trail := TrimSpaceIs(mode);
    assert TrimSpace(mode) == "" && mode != "" ==> IsSpace(mode[0]);
    SpacesAre('c');
  }

  /** A running container made from the plan's reference, on the image that names. */
  ghost predicate IsReplacement(cfg: UpdaterConfig, recentAPI: bool, images: map<string, string>, plan: Plan,
                                c: Container) {
    && c.config.image == plan.newRef && plan.newRef in images && c.imageID == images[plan.newRef] && c.running
    && TakesPlace(cfg, recentAPI, plan, plan.newRef, c)
  }

  /** A running container made from the image the plan's container ran on. */
  ghost predicate IsRestored(cfg: UpdaterConfig, recentAPI: bool, images: map<string, string>, plan: Plan,
                             c: Container) {
    plan.inspect.Some? &&
    var ref := TrimSpace(plan.inspect.value.image);
    c.config.image == ref && ref in images && c.imageID == images[ref] && c.running &&
      TakesPlace(cfg, recentAPI, plan, ref, c)
  }

  /** What a result says about the one container its replacement left standing, new to the host: after a
      success it has replaced the old one, after a rollback it is the old one restored; else there is none. */
  ghost predicate Stands(cfg: UpdaterConfig, recentAPI: bool, images: map<string, string>, used: set<string>,
                         now: Containers, plan: Plan, r: ResourceResult, survivor: string)
  {
    if r.status != Failed then
      survivor in now && survivor !in used && IsReplacement(cfg, recentAPI, images, plan, now[survivor])
    else if r.error == RollbackSuccess then
      survivor in now && survivor !in used && IsRestored(cfg, recentAPI, images, plan, now[survivor])
    else survivor == ""
  }

  /** What a result says about the old container: after a failed stop it is still there, and after a
      failed removal too if those are failure-atomic. */
  predicate StillThere(atomicFailures: bool, before: Containers, now: Containers, plan: Plan, r: ResourceResult) {
    var kept := r.status == Failed && (r.error == StopFailure || (r.error == RemoveFailure && atomicFailures));
    kept && plan.cnt.id in before ==> plan.cnt.id in now
  }


  /** No container stands for two candidates. */
  ghost predicate UniqueIDs(candidates: seq<ContainerWithDeps>, plans: map<Name, Plan>)
    requires Planned(candidates, plans)
  {
    forall j, k :: 0 <= j < k < |candidates| ==> OldID(candidates, plans, j) != OldID(candidates, plans, k)
  }

  /** Every container that no candidate stands for is as it was. */
  ghost predicate KeepsOthers(before: Containers, after: Containers, candidates: seq<ContainerWithDeps>,
                              plans: map<Name, Plan>)
    requires Planned(candidates, plans)
  {
    forall id :: id in before && (forall k :: 0 <= k < |candidates| ==> OldID(candidates, plans, k) != id) ==>
      id in after && after[id] == before[id]
  }

  ghost predicate Planned(candidates: seq<ContainerWithDeps>, plans: map<Name, Plan>) {
    forall i :: 0 <= i < |candidates| ==> candidates[i].name in plans && plans[candidates[i].name].inspect.Some?
  }

  /** The container the candidate at `i` stands for. */
  function OldID(candidates: seq<ContainerWithDeps>, plans: map<Name, Plan>, i: nat): string
    requires i < |candidates| && candidates[i].name in plans
  {
    plans[candidates[i].name].cnt.id
  }

  /** The candidates' containers from `i` on were stopped and removed, save those whose result says
      otherwise; no other container was touched. */
  ghost predicate StoppedFrom(before: Containers, now: Containers, candidates: seq<ContainerWithDeps>,
                              plans: map<Name, Plan>, i: nat, results: map<Name, ResourceResult>)
    requires Planned(candidates, plans)
  {
    && now.Keys <= before.Keys
    && (forall id :: id in before && (forall k :: i <= k < |candidates| ==> OldID(candidates, plans, k) != id) ==>
          id in now && now[id] == before[id])
    && (forall k :: i <= k < |candidates| ==>
          candidates[k].name in results &&
          (results[candidates[k].name].status == Failed || OldID(candidates, plans, k) !in now))
  }

  /** Everything that survived the stops is still there, and if every candidate before `i` succeeded,
      everything else is the replacement of one of them. */
  ghost predicate ReplacedUpTo(cfg: UpdaterConfig, recentAPI: bool, images: map<string, string>, mid: Containers,
                               now: Containers, candidates: seq<ContainerWithDeps>, plans: map<Name, Plan>, i: nat,
                               results: map<Name, ResourceResult>)
    requires Planned(candidates, plans) && i <= |candidates|
  {
    && KeepsAll(mid, now)
    && ((forall k :: 0 <= k < i ==> candidates[k].name in results && results[candidates[k].name].status != Failed) ==>
          forall id :: id in now ==> id in mid || ReplacesOne(cfg, recentAPI, images, candidates, plans, i, now[id]))
  }

  ghost predicate ReplacesOne(cfg: UpdaterConfig, recentAPI: bool, images: map<string, string>,
                              candidates: seq<ContainerWithDeps>, plans: map<Name, Plan>, i: nat, c: Container)
    requires Planned(candidates, plans) && i <= |candidates|
  {
    exists k :: 0 <= k < i && IsReplacement(cfg, recentAPI, images, plans[candidates[k].name], c)
  }

  /** Every container is an untouched one that no candidate stood for, or a candidate's replacement. */
  ghost predicate AllReplaced(cfg: UpdaterConfig, recentAPI: bool, images: map<string, string>, before: Containers,
                              after: Containers, candidates: seq<ContainerWithDeps>, plans: map<Name, Plan>)
    requires Planned(candidates, plans)
  {
    forall id :: id in after ==>
      || (id in before && after[id] == before[id] && forall k :: 0 <= k < |candidates| ==>
            OldID(candidates, plans, k) != id)
      || ReplacesOne(cfg, recentAPI, images, candidates, plans, |candidates|, after[id])
  }

  // ---------- The two passes ----------

  /** The results gathered so far: base results, failed or still open, from `i` on. */
  ghost predicate StopResults(cfg: UpdaterConfig, candidates: seq<ContainerWithDeps>, plans: map<Name, Plan>, i: nat,
                              results: map<Name, ResourceResult>)
    requires Planned(candidates, plans)
  {
    forall k :: i <= k < |candidates| ==>
      && candidates[k].name in results
      && IsStopResult(cfg, candidates[k], plans[candidates[k].name], results[candidates[k].name])
  }

  predicate IsStopResult(cfg: UpdaterConfig, c: ContainerWithDeps, plan: Plan, r: ResourceResult) {
    r == StandaloneRestartResult(cfg, c, plan) || r == FailedResult(cfg, c, plan, r.error)
  }

  ghost predicate StopBlocks(candidates: seq<ContainerWithDeps>, plans: map<Name, Plan>, i: nat, blocks: seq<seq<Op>>)
    requires Planned(candidates, plans) && i <= |candidates|
  {
    |blocks| == |candidates| - i &&
    forall k :: 0 <= k < |blocks| ==> IsStopBlock(candidates[i + k].name, OldID(candidates, plans, i + k), blocks[k])
  }

  method StopPass(h: Host, cfg: UpdaterConfig, candidates: seq<ContainerWithDeps>, plans: map<Name, Plan>)
    returns (results: map<Name, ResourceResult>, ghost blocks: seq<seq<Op>>)
    requires h.Valid() && UniqueNames(candidates) && Planned(candidates, plans)
    modifies h`containers, h`trace
    ensures h.Valid() && h.trace == old(h.trace) + JoinBack(blocks)
    ensures StopBlocks(candidates, plans, 0, blocks) && StopResults(cfg, candidates, plans, 0, results)
    ensures StoppedFrom(old(h.containers), h.containers, candidates, plans, 0, results)
    ensures StopsTell(candidates, 0, results, blocks)
    ensures StopsReported(h.atomicFailures, old(h.containers), h.containers, candidates, plans, 0, results)
  {
    hide *;
    ghost var before, start := h.containers, h.trace;
    results, blocks := map[], [];
    NothingStopped(before, cfg, candidates, plans);
    for i := |candidates| downto 0
      invariant h.Valid() && h.trace == start + JoinBack(blocks)
      invariant StopBlocks(candidates, plans, i, blocks) && StopResults(cfg, candidates, plans, i, results)
      invariant StoppedFrom(before, h.containers, candidates, plans, i, results)
      invariant StopsTell(candidates, i, results, blocks)
      invariant StopsReported(h.atomicFailures, before, h.containers, candidates, plans, i, results)
    {
      PlanAt(candidates, plans, i);
      var candidate := candidates[i];
      var plan := plans[candidate.name];
      var result := StandaloneRestartResult(cfg, candidate, plan);
      ghost var prev := h.containers;
      var err, block := StopAndRemove(h, plan.cnt, candidate.name);
      if err.Some? {
        result := FailedResult(cfg, candidate, plan, if err.value.StopFailed? then StopFailure else RemoveFailure);
      }
      FailureKeepsError(cfg, candidate, plan, StopFailure);
      FailureKeepsError(cfg, candidate, plan, RemoveFailure);
      StopReported(h.atomicFailures, before, prev, h.containers, candidates, plans, i, results, result, err);
      OneMoreBlockBack(start, blocks, block);
      OneMoreStopped(before, prev, h.containers, cfg, candidates, plans, i, results, result, err.Some?);
      OneMoreStopBlock(candidates, plans, i, blocks, block);
      OneMoreTold(candidates, i, results, result, blocks, block);
      results := results[candidate.name := result];
      blocks := [block] + blocks;
    }
  }

  /** Every failure so far is of a stop or a removal, and what it says of the old container holds. */
  ghost predicate StopsReported(atomicFailures: bool, before: Containers, now: Containers,
                                candidates: seq<ContainerWithDeps>, plans: map<Name, Plan>, i: nat,
                                results: map<Name, ResourceResult>)
    requires Planned(candidates, plans)
  {
    forall k :: i <= k < |candidates| && candidates[k].name in results ==>
      var r := results[candidates[k].name];
      && (r.status == Failed ==> r.error in {StopFailure, RemoveFailure})
      && (UniqueIDs(candidates, plans) ==> StillThere(atomicFailures, before, now, plans[candidates[k].name], r))
  }

  lemma StopReported(atomicFailures: bool, before: Containers, prev: Containers, now: Containers,
                     candidates: seq<ContainerWithDeps>, plans: map<Name, Plan>, i: nat,
                     results: map<Name, ResourceResult>, result: ResourceResult, err: Option<StopError>)
    requires UniqueNames(candidates) && Planned(candidates, plans) && i < |candidates|
    requires StoppedFrom(before, prev, candidates, plans, i + 1, results)
    requires StopsReported(atomicFailures, before, prev, candidates, plans, i + 1, results)
    requires var id := OldID(candidates, plans, i);
      && now - {id} == prev - {id}
      && (err.Some? && (err.value.StopFailed? || atomicFailures) && id in prev ==> id in now)
    requires result.status == Failed <==> err.Some?
    requires err.Some? ==> result.error == if err.value.StopFailed? then StopFailure else RemoveFailure
    ensures StopsReported(atomicFailures, before, now, candidates, plans, i, results[candidates[i].name := result])
  {
    SameButOne(prev, now, OldID(candidates, plans, i));
    var more := results[candidates[i].name := result];
    forall k | i <= k < |candidates| && candidates[k].name in more && UniqueIDs(candidates, plans)
      ensures StillThere(atomicFailures, before, now, plans[candidates[k].name], more[candidates[k].name])
    {
      var id := OldID(candidates, plans, k);
      if k == i {
        assert forall l :: i + 1 <= l < |candidates| ==> OldID(candidates, plans, l) != id;
      } else {
        assert id != OldID(candidates, plans, i);
        assert more[candidates[k].name] == results[candidates[k].name];
      }
    }
    hide StillThere, UniqueIDs;
  }

  /** Each stop block from `i` on is as its candidate's result says: cut short exactly by a failed stop. */
  ghost predicate StopsTell(candidates: seq<ContainerWithDeps>, i: nat, results: map<Name, ResourceResult>,
                            blocks: seq<seq<Op>>)
  {
    i <= |candidates| && |blocks| == |candidates| - i &&
    forall k :: 0 <= k < |blocks| ==> StopTells(candidates[i + k].name, results, blocks[k])
  }

  predicate StopTells(name: Name, results: map<Name, ResourceResult>, block: seq<Op>) {
    name in results && (StopFailed(results[name]) <==> |block| == 1)
  }

  predicate StopFailed(r: ResourceResult) {
    r.status == Failed && r.error == StopFailure
  }

  predicate RemovalFailed(r: ResourceResult) {
    r.status == Failed && r.error == RemoveFailure
  }

  lemma OneMoreTold(candidates: seq<ContainerWithDeps>, i: nat, results: map<Name, ResourceResult>,
                    result: ResourceResult, blocks: seq<seq<Op>>, block: seq<Op>)
    requires UniqueNames(candidates) && i < |candidates| && StopsTell(candidates, i + 1, results, blocks)
    requires StopFailed(result) <==> |block| == 1
    ensures StopsTell(candidates, i, results[candidates[i].name := result], [block] + blocks)
  {
    var more, r := [block] + blocks, results[candidates[i].name := result];
    hide StopFailed;
    forall k | 0 <= k < |more| ensures StopTells(candidates[i + k].name, r, more[k]) {
      if k > 0 {
        assert more[k] == blocks[k - 1];
        assert StopTells(candidates[(i + 1) + (k - 1)].name, results, blocks[k - 1]);
      }
    }
  }

  lemma FailureKeepsError(cfg: UpdaterConfig, c: ContainerWithDeps, plan: Plan, error: ResultError)
    ensures FailedResult(cfg, c, plan, error).error == error && FailedResult(cfg, c, plan, error).status == Failed
    ensures StopFailed(FailedResult(cfg, c, plan, error)) <==> error == StopFailure
    ensures var open := StandaloneRestartResult(cfg, c, plan); open.status == Checked && !StopFailed(open)
  {
  }

  lemma PlanAt(candidates: seq<ContainerWithDeps>, plans: map<Name, Plan>, i: nat)
    requires Planned(candidates, plans) && i < |candidates|
    ensures candidates[i].name in plans && plans[candidates[i].name].inspect.Some?
    ensures OldID(candidates, plans, i) == plans[candidates[i].name].cnt.id
  {
  }

  lemma NothingStopped(before: Containers, cfg: UpdaterConfig, candidates: seq<ContainerWithDeps>,
                       plans: map<Name, Plan>)
    requires Planned(candidates, plans)
    ensures JoinBack([]) == [] && StopBlocks(candidates, plans, |candidates|, [])
    ensures StopResults(cfg, candidates, plans, |candidates|, map[])
    ensures StoppedFrom(before, before, candidates, plans, |candidates|, map[])
    ensures StopsTell(candidates, |candidates|, map[], [])
    ensures forall atomic :: StopsReported(atomic, before, before, candidates, plans, |candidates|, map[])
  {
  }

  lemma OneMoreBlockBack(start: seq<Op>, blocks: seq<seq<Op>>, block: seq<Op>)
    ensures start + JoinBack(blocks) + block == start + JoinBack([block] + blocks)
  {
    assert ([block] + blocks)[1..] == blocks;
  }

  lemma OneMoreStopBlock(candidates: seq<ContainerWithDeps>, plans: map<Name, Plan>, i: nat, blocks: seq<seq<Op>>,
                         block: seq<Op>)
    requires Planned(candidates, plans) && i < |candidates| && StopBlocks(candidates, plans, i + 1, blocks)
    requires IsStopBlock(candidates[i].name, OldID(candidates, plans, i), block)
    ensures StopBlocks(candidates, plans, i, [block] + blocks)
  {
    var more := [block] + blocks;
    forall k | 0 <= k < |more| ensures IsStopBlock(candidates[i + k].name, OldID(candidates, plans, i + k), more[k]) {
      if k > 0 { assert more[k] == blocks[k - 1]; }
    }
  }

  lemma OneMoreStopped(before: Containers, prev: Containers, now: Containers, cfg: UpdaterConfig,
                       candidates: seq<ContainerWithDeps>, plans: map<Name, Plan>, i: nat,
                       results: map<Name, ResourceResult>, result: ResourceResult, failed: bool)
    requires UniqueNames(candidates) && Planned(candidates, plans) && i < |candidates|
    requires StopResults(cfg, candidates, plans, i + 1, results)
    requires StoppedFrom(before, prev, candidates, plans, i + 1, results)
    requires now - {OldID(candidates, plans, i)} == prev - {OldID(candidates, plans, i)}
    requires OldID(candidates, plans, i) in now ==> OldID(candidates, plans, i) in prev && failed
    requires var c := candidates[i];
             result == if failed then FailedResult(cfg, c, plans[c.name], result.error)
                       else StandaloneRestartResult(cfg, c, plans[c.name])
    ensures StopResults(cfg, candidates, plans, i, results[candidates[i].name := result])
    ensures StoppedFrom(before, now, candidates, plans, i, results[candidates[i].name := result])
  {
    NextStopResults(cfg, candidates, plans, i, results, result);
    NextStopped(before, prev, now, candidates, plans, i, results, result);
    hide StopResults, StoppedFrom;
  }

  lemma NextStopResults(cfg: UpdaterConfig, candidates: seq<ContainerWithDeps>, plans: map<Name, Plan>, i: nat,
                        results: map<Name, ResourceResult>, result: ResourceResult)
    requires UniqueNames(candidates) && Planned(candidates, plans) && i < |candidates|
    requires StopResults(cfg, candidates, plans, i + 1, results)
    requires IsStopResult(cfg, candidates[i], plans[candidates[i].name], result)
    ensures StopResults(cfg, candidates, plans, i, results[candidates[i].name := result])
  {
    hide IsStopResult;
  }

  lemma NextStopped(before: Containers, prev: Containers, now: Containers, candidates: seq<ContainerWithDeps>,
                    plans: map<Name, Plan>, i: nat, results: map<Name, ResourceResult>, result: ResourceResult)
    requires UniqueNames(candidates) && Planned(candidates, plans) && i < |candidates|
    requires StoppedFrom(before, prev, candidates, plans, i + 1, results)
    requires now - {OldID(candidates, plans, i)} == prev - {OldID(candidates, plans, i)}
    requires OldID(candidates, plans, i) in now ==> OldID(candidates, plans, i) in prev && result.status == Failed
    ensures StoppedFrom(before, now, candidates, plans, i, results[candidates[i].name := result])
  {
    SameButOne(prev, now, OldID(candidates, plans, i));
  }

  lemma SameButOne(a: Containers, b: Containers, id: string)
    requires a - {id} == b - {id}
    ensures forall k :: k != id ==> (k in a <==> k in b) && (k in a ==> a[k] == b[k])
  {
    forall k | k != id ensures (k in a <==> k in b) && (k in a ==> a[k] == b[k]) {
      assert k in a <==> k in a - {id};
      assert k in b <==> k in b - {id};
    }
  }

  // ---------- Creating, first to last ----------

  ghost predicate CreateBlocks(candidates: seq<ContainerWithDeps>, i: nat, blocks: seq<seq<Op>>, survivors: seq<string>)
    requires i <= |candidates|
  {
    |blocks| == |survivors| == i &&
    forall k :: 0 <= k < i ==>
      ReplaceOps(blocks[k], candidates[k].name) && CleansUp(blocks[k], candidates[k].name, survivors[k])
  }

  /** Results are final before `i` and as the stops left them from `i` on. */
  ghost predicate CreateResults(cfg: UpdaterConfig, candidates: seq<ContainerWithDeps>, plans: map<Name, Plan>, i: nat,
                                results: map<Name, ResourceResult>)
    requires Planned(candidates, plans) && i <= |candidates|
  {
    && StopResults(cfg, candidates, plans, i, results)
    && forall k :: 0 <= k < i ==>
         && candidates[k].name in results
         && IsStandaloneResult(cfg, candidates[k], plans[candidates[k].name], results[candidates[k].name])
  }

  /** A candidate whose stop failed stays failed and is given no calls. */
  ghost predicate FailuresStand(candidates: seq<ContainerWithDeps>, stopped: map<Name, ResourceResult>, i: nat,
                                results: map<Name, ResourceResult>, blocks: seq<seq<Op>>)
    requires i <= |candidates| && |blocks| == i
  {
    forall k :: 0 <= k < i && candidates[k].name in stopped && stopped[candidates[k].name].status == Failed ==>
      blocks[k] == [] && candidates[k].name in results && results[candidates[k].name] == stopped[candidates[k].name]
  }

  method CreatePass(h: Host, cfg: UpdaterConfig, candidates: seq<ContainerWithDeps>, plans: map<Name, Plan>,
                    recentAPI: bool, stopped: map<Name, ResourceResult>)
    returns (results: map<Name, ResourceResult>, ghost blocks: seq<seq<Op>>, ghost survivors: seq<string>)
    requires h.Valid() && UniqueNames(candidates) && Planned(candidates, plans)
    requires StopResults(cfg, candidates, plans, 0, stopped) && OnlyStopErrors(candidates, stopped)
    modifies h`containers, h`usedIDs, h`trace
    ensures h.Valid() && h.trace == old(h.trace) + Join(blocks)
    ensures |blocks| == |candidates| && CreateBlocks(candidates, |candidates|, blocks, survivors)
    ensures CreateResults(cfg, candidates, plans, |candidates|, results)
    ensures FailuresStand(candidates, stopped, |candidates|, results, blocks)
    ensures ReplacedUpTo(cfg, recentAPI, h.images, old(h.containers), h.containers, candidates, plans, |candidates|,
                         results)
    ensures CreatesReported(cfg, recentAPI, h.images, old(h.usedIDs), h.containers, candidates, plans, |candidates|,
                            results,
                            survivors)
    ensures ErrorsFit(candidates, stopped, |candidates|, results)
  {
    hide *;
    ghost var mid, start, used := h.containers, h.trace, h.usedIDs;
    results, blocks, survivors := stopped, [], [];
    NothingCreated(recentAPI, h.images, mid, cfg, candidates, plans, stopped);
    for i := 0 to |candidates|
      invariant h.Valid() && h.trace == start + Join(blocks)
      invariant |blocks| == i && CreateBlocks(candidates, i, blocks, survivors)
      invariant CreateResults(cfg, candidates, plans, i, results)
      invariant FailuresStand(candidates, stopped, i, results, blocks) && UntouchedFrom(candidates, stopped, i, results)
      invariant ReplacedUpTo(cfg, recentAPI, h.images, mid, h.containers, candidates, plans, i, results)
      invariant used <= h.usedIDs
      invariant CreatesReported(cfg, recentAPI, h.images, used, h.containers, candidates, plans, i, results, survivors)
      invariant ErrorsFit(candidates, stopped, i, results)
    {
      PlanAt(candidates, plans, i);
      ResultAt(cfg, candidates, plans, i, results, stopped);
      var candidate := candidates[i];
      var plan := plans[candidate.name];
      var result := results[candidate.name];
      ghost var prev, block, survivor := h.containers, [], "";
      NoAttempt(prev, candidate.name);
      if result.status != Failed {
        var outcome;
        outcome, survivor, block := CreateStartOrRollback(h, cfg, plan.inspect.value, plan.newRef, recentAPI,
                                                          candidate.name);
        result := if outcome.Replaced? then AppliedResult(cfg, candidate, plan)
                  else if outcome.RolledBack? then FailedResult(cfg, candidate, plan, RollbackSuccess)
                  else FailedResult(cfg, candidate, plan, RollbackFailure);
        OutcomeAdds(cfg, prev, h.containers, h.images, plan, recentAPI, outcome, survivor);
        OutcomeStands(prev, h.containers, h.images, used, cfg, candidate, plan, recentAPI, outcome, survivor);
        ResultOfAttempt(cfg, candidate, plan);
      } else {
        StopErrorStands(cfg, recentAPI, h.images, used, h.containers, candidates, stopped, i, result, plan);
      }
      OneMoreError(candidates, stopped, i, results, result);
      OneMoreReported(cfg, recentAPI, h.images, used, prev, h.containers, candidates, plans, i, results, result,
                      survivors,
                      survivor);
      FailedStopStands(cfg, candidate, plan, result);
      OneMoreBlock(start, blocks, block);
      OneMoreCreateBlock(candidates, i, blocks, block, survivors, survivor);
      OneMoreResult(cfg, candidates, plans, i, stopped, results, result, blocks, block);
      OneMoreReplaced(cfg, recentAPI, h.images, mid, prev, h.containers, candidates, plans, i, results, result);
      results := results[candidate.name := result];
      survivors := survivors + [survivor];
      blocks := blocks + [block];
    }
  }

  ghost predicate OnlyStopErrors(candidates: seq<ContainerWithDeps>, stopped: map<Name, ResourceResult>) {
    forall k :: 0 <= k < |candidates| && candidates[k].name in stopped ==>
      var r := stopped[candidates[k].name];
      r.status == Failed ==> r.error in {StopFailure, RemoveFailure}
  }

  ghost predicate CreatesReported(cfg: UpdaterConfig, recentAPI: bool, images: map<string, string>, used: set<string>,
                                  now: Containers, candidates: seq<ContainerWithDeps>, plans: map<Name, Plan>, i: nat,
                                  results: map<Name, ResourceResult>, survivors: seq<string>)
    requires Planned(candidates, plans) && i <= |candidates|
  {
    |survivors| == i &&
    forall k :: 0 <= k < i ==>
      && candidates[k].name in results
      && Stands(cfg, recentAPI, images, used, now, plans[candidates[k].name], results[candidates[k].name], survivors[k])
  }

  /** A failed result is the stop's or of a rollback. */
  ghost predicate ErrorsFit(candidates: seq<ContainerWithDeps>, stopped: map<Name, ResourceResult>, i: nat,
                            results: map<Name, ResourceResult>)
    requires i <= |candidates|
  {
    forall k :: 0 <= k < i && candidates[k].name in results && candidates[k].name in stopped ==>
      ErrorFits(stopped[candidates[k].name], results[candidates[k].name])
  }

  predicate ErrorFits(stopped: ResourceResult, r: ResourceResult) {
    r.status == Failed ==> r == stopped || r.error in {RollbackSuccess, RollbackFailure}
  }

  lemma OneMoreError(candidates: seq<ContainerWithDeps>, stopped: map<Name, ResourceResult>, i: nat,
                     results: map<Name, ResourceResult>, result: ResourceResult)
    requires UniqueNames(candidates) && i < |candidates| && ErrorsFit(candidates, stopped, i, results)
    requires candidates[i].name in stopped && ErrorFits(stopped[candidates[i].name], result)
    ensures ErrorsFit(candidates, stopped, i + 1, results[candidates[i].name := result])
  {
    hide ErrorFits;
  }

  lemma OutcomeStands(before: Containers, after: Containers, images: map<string, string>, used: set<string>,
                      cfg: UpdaterConfig, c: ContainerWithDeps, plan: Plan, recentAPI: bool, outcome: Outcome,
                      survivor: string)
    requires plan.inspect.Some?
    requires OutcomeHolds(cfg, before, after, images, plan.inspect.value, recentAPI, plan.newRef, outcome, survivor)
    requires if outcome.RollbackFailed? then survivor == "" else survivor !in used
    ensures var error := if outcome.RolledBack? then RollbackSuccess else RollbackFailure;
      Stands(cfg, recentAPI, images, used, after, plan,
             if outcome.Replaced? then AppliedResult(cfg, c, plan) else FailedResult(cfg, c, plan, error), survivor)
    ensures forall stopped ::
      && ErrorFits(stopped, AppliedResult(cfg, c, plan))
      && ErrorFits(stopped, FailedResult(cfg, c, plan, RollbackSuccess))
      && ErrorFits(stopped, FailedResult(cfg, c, plan, RollbackFailure))
  {
    hide WantedEndpoints, ContainerName, HasSuccessorLabels;
    match outcome
    case Replaced => assert IsReplacement(cfg, recentAPI, images, plan, after[survivor]);
    case RolledBack => assert IsRestored(cfg, recentAPI, images, plan, after[survivor]);
    case RollbackFailed =>
  }

  lemma StopErrorStands(cfg: UpdaterConfig, recentAPI: bool, images: map<string, string>, used: set<string>,
                        now: Containers, candidates: seq<ContainerWithDeps>, stopped: map<Name, ResourceResult>, i: nat,
                        r: ResourceResult, plan: Plan)
    requires i < |candidates| && candidates[i].name in stopped && r == stopped[candidates[i].name]
    requires OnlyStopErrors(candidates, stopped) && r.status == Failed
    ensures Stands(cfg, recentAPI, images, used, now, plan, r, "") && ErrorFits(r, r)
  {
  }

  lemma KeptStands(cfg: UpdaterConfig, recentAPI: bool, images: map<string, string>, used: set<string>,
                   prev: Containers, now: Containers, plan: Plan, r: ResourceResult, survivor: string)
    requires KeepsAll(prev, now) && Stands(cfg, recentAPI, images, used, prev, plan, r, survivor)
    ensures Stands(cfg, recentAPI, images, used, now, plan, r, survivor)
  {
    hide IsReplacement, IsRestored;
  }

  lemma OneMoreReported(cfg: UpdaterConfig, recentAPI: bool, images: map<string, string>, used: set<string>,
                        prev: Containers, now: Containers, candidates: seq<ContainerWithDeps>, plans: map<Name, Plan>,
                        i: nat, results: map<Name, ResourceResult>, result: ResourceResult, survivors: seq<string>,
                        survivor: string)
    requires UniqueNames(candidates) && Planned(candidates, plans) && i < |candidates| && KeepsAll(prev, now)
    requires CreatesReported(cfg, recentAPI, images, used, prev, candidates, plans, i, results, survivors)
    requires Stands(cfg, recentAPI, images, used, now, plans[candidates[i].name], result, survivor)
    ensures CreatesReported(cfg, recentAPI, images, used, now, candidates, plans, i + 1,
                            results[candidates[i].name := result],
                            survivors + [survivor])
  {
    forall k | 0 <= k < i
      ensures candidates[k].name in results
      ensures Stands(cfg, recentAPI, images, used, now, plans[candidates[k].name], results[candidates[k].name],
                     survivors[k])
    {
      KeptStands(cfg, recentAPI, images, used, prev, now, plans[candidates[k].name], results[candidates[k].name],
                 survivors[k]);
    }
    hide Stands;
  }

  lemma NoAttempt(containers: Containers, owner: Name)
    ensures KeepsAll(containers, containers) && ReplaceOps([], owner) && CleansUp([], owner, "")
  {
  }

  lemma ResultOfAttempt(cfg: UpdaterConfig, c: ContainerWithDeps, plan: Plan)
    ensures IsStandaloneResult(cfg, c, plan, AppliedResult(cfg, c, plan))
    ensures AppliedResult(cfg, c, plan).status != Failed
    ensures forall error :: IsStandaloneResult(cfg, c, plan, FailedResult(cfg, c, plan, error)) &&
                            FailedResult(cfg, c, plan, error).status == Failed
  {
  }

  lemma FailedStopStands(cfg: UpdaterConfig, c: ContainerWithDeps, plan: Plan, r: ResourceResult)
    requires IsStopResult(cfg, c, plan, r) || IsStandaloneResult(cfg, c, plan, r)
    ensures IsStopResult(cfg, c, plan, r) && r.status == Failed ==> IsStandaloneResult(cfg, c, plan, r)
  {
  }

  /** The results from `i` on are still those of the stops. */
  ghost predicate UntouchedFrom(candidates: seq<ContainerWithDeps>, stopped: map<Name, ResourceResult>, i: nat,
                                results: map<Name, ResourceResult>)
  {
    forall k :: i <= k < |candidates| && candidates[k].name in stopped ==>
      candidates[k].name in results && results[candidates[k].name] == stopped[candidates[k].name]
  }

  lemma NothingCreated(recentAPI: bool, images: map<string, string>, mid: Containers, cfg: UpdaterConfig,
                       candidates: seq<ContainerWithDeps>,
                       plans: map<Name, Plan>, stopped: map<Name, ResourceResult>)
    requires Planned(candidates, plans) && StopResults(cfg, candidates, plans, 0, stopped)
    ensures Join([]) == [] && CreateBlocks(candidates, 0, [], []) && CreateResults(cfg, candidates, plans, 0, stopped)
    ensures FailuresStand(candidates, stopped, 0, stopped, []) && UntouchedFrom(candidates, stopped, 0, stopped)
    ensures ReplacedUpTo(cfg, recentAPI, images, mid, mid, candidates, plans, 0, stopped)
    ensures forall used :: CreatesReported(cfg, recentAPI, images, used, mid, candidates, plans, 0, stopped, [])
    ensures ErrorsFit(candidates, stopped, 0, stopped)
  {
  }

  lemma ResultAt(cfg: UpdaterConfig, candidates: seq<ContainerWithDeps>, plans: map<Name, Plan>, i: nat,
                 results: map<Name, ResourceResult>, stopped: map<Name, ResourceResult>)
    requires Planned(candidates, plans) && i < |candidates| && CreateResults(cfg, candidates, plans, i, results)
    requires StopResults(cfg, candidates, plans, 0, stopped) && UntouchedFrom(candidates, stopped, i, results)
    ensures candidates[i].name in results && candidates[i].name in stopped
    ensures results[candidates[i].name] == stopped[candidates[i].name]
    ensures IsStopResult(cfg, candidates[i], plans[candidates[i].name], results[candidates[i].name])
  {
  }

  lemma OneMoreBlock(start: seq<Op>, blocks: seq<seq<Op>>, block: seq<Op>)
    ensures start + Join(blocks) + block == start + Join(blocks + [block])
    ensures block == [] ==> Join(blocks + [block]) == Join(blocks)
  {
    assert (blocks + [block])[..|blocks|] == blocks;
  }

  /** A replacement attempt keeps every other container, and if it succeeded adds only the replacement. */
  lemma OutcomeAdds(cfg: UpdaterConfig, before: Containers, after: Containers, images: map<string, string>, plan: Plan,
                    recentAPI: bool, outcome: Outcome, survivor: string)
    requires plan.inspect.Some?
    requires OutcomeHolds(cfg, before, after, images, plan.inspect.value, recentAPI, plan.newRef, outcome, survivor)
    ensures KeepsAll(before, after)
    ensures outcome.Replaced? ==> forall id :: id in after ==>
              id in before || IsReplacement(cfg, recentAPI, images, plan, after[id])
  {
    hide WantedEndpoints, ContainerName;
    if outcome.Replaced? {
      forall id | id in after && id !in before ensures IsReplacement(cfg, recentAPI, images, plan, after[id]) {
        assert id == survivor || id in after - {survivor};
      }
    }
  }

  lemma OneMoreCreateBlock(candidates: seq<ContainerWithDeps>, i: nat, blocks: seq<seq<Op>>, block: seq<Op>,
                           survivors: seq<string>, survivor: string)
    requires i < |candidates| && CreateBlocks(candidates, i, blocks, survivors)
    requires ReplaceOps(block, candidates[i].name) && CleansUp(block, candidates[i].name, survivor)
    ensures CreateBlocks(candidates, i + 1, blocks + [block], survivors + [survivor])
  {
    hide ReplaceOps, CleansUp;
  }

  lemma OneMoreResult(cfg: UpdaterConfig, candidates: seq<ContainerWithDeps>, plans: map<Name, Plan>, i: nat,
                      stopped: map<Name, ResourceResult>, results: map<Name, ResourceResult>, result: ResourceResult,
                      blocks: seq<seq<Op>>, block: seq<Op>)
    requires UniqueNames(candidates) && Planned(candidates, plans) && i < |candidates| && |blocks| == i
    requires CreateResults(cfg, candidates, plans, i, results)
    requires FailuresStand(candidates, stopped, i, results, blocks) && UntouchedFrom(candidates, stopped, i, results)
    requires IsStandaloneResult(cfg, candidates[i], plans[candidates[i].name], result)
    requires candidates[i].name in stopped && stopped[candidates[i].name].status == Failed ==>
               block == [] && result == stopped[candidates[i].name]
    ensures var more := results[candidates[i].name := result];
      && CreateResults(cfg, candidates, plans, i + 1, more)
      && FailuresStand(candidates, stopped, i + 1, more, blocks + [block])
      && UntouchedFrom(candidates, stopped, i + 1, more)
  {
    hide IsStandaloneResult, IsStopResult;
  }

  lemma OneMoreReplaced(cfg: UpdaterConfig, recentAPI: bool, images: map<string, string>, mid: Containers,
                        prev: Containers, now: Containers, candidates: seq<ContainerWithDeps>, plans: map<Name, Plan>,
                        i: nat, results: map<Name, ResourceResult>, result: ResourceResult)
    requires UniqueNames(candidates) && Planned(candidates, plans) && i < |candidates|
    requires ReplacedUpTo(cfg, recentAPI, images, mid, prev, candidates, plans, i, results)
    requires KeepsAll(prev, now)
    requires result.status != Failed ==>
               forall id :: id in now ==>
                 id in prev || IsReplacement(cfg, recentAPI, images, plans[candidates[i].name], now[id])
    ensures ReplacedUpTo(cfg, recentAPI, images, mid, now, candidates, plans, i + 1,
                         results[candidates[i].name := result])
  {
    hide IsReplacement;
    var more := results[candidates[i].name := result];
    if forall k :: 0 <= k < i + 1 ==> candidates[k].name in more && more[candidates[k].name].status != Failed {
      assert more[candidates[i].name].status != Failed;
      forall k | 0 <= k < i ensures candidates[k].name in results && results[candidates[k].name].status != Failed {
        assert candidates[k].name in more && more[candidates[k].name].status != Failed;
      }
      forall id | id in now
        ensures id in mid || ReplacesOne(cfg, recentAPI, images, candidates, plans, i + 1, now[id])
      {
        if id in prev && id !in mid {
          assert ReplacesOne(cfg, recentAPI, images, candidates, plans, i, now[id]);
        }
      }
    }
  }

  // ---------- Both passes ----------

  /** The trace and results of a standalone phase, candidate by candidate. */
  ghost predicate PhaseBlocks(candidates: seq<ContainerWithDeps>, plans: map<Name, Plan>,
                              stops: seq<seq<Op>>, creates: seq<seq<Op>>, survivors: seq<string>)
    requires Planned(candidates, plans)
  {
    && StopBlocks(candidates, plans, 0, stops)
    && CreateBlocks(candidates, |candidates|, creates, survivors)
  }

  ghost predicate PhaseResults(cfg: UpdaterConfig, candidates: seq<ContainerWithDeps>, plans: map<Name, Plan>,
                               results: seq<ResourceResult>)
    requires Planned(candidates, plans)
  {
    |results| == |candidates| &&
    forall i :: 0 <= i < |candidates| ==> IsStandaloneResult(cfg, candidates[i], plans[candidates[i].name], results[i])
  }

  method UpdateStandaloneRestartCandidates(h: Host, cfg: UpdaterConfig, candidates: seq<ContainerWithDeps>,
                                           plans: map<Name, Plan>, recentAPI: bool)
    returns (results: seq<ResourceResult>, ghost stops: seq<seq<Op>>, ghost creates: seq<seq<Op>>,
             ghost survivors: seq<string>)
    requires h.Valid() && UniqueNames(candidates) && Planned(candidates, plans)
    modifies h`containers, h`usedIDs, h`trace
    ensures h.Valid() && h.trace == old(h.trace) + JoinBack(stops) + Join(creates)
    ensures PhaseBlocks(candidates, plans, stops, creates, survivors)
    ensures PhaseResults(cfg, candidates, plans, results)
    ensures CreatesFollowRemovals(stops, creates, results)
    ensures NoneFailed(results) ==>
              AllReplaced(cfg, recentAPI, h.images, old(h.containers), h.containers, candidates, plans)
    ensures KeepsOthers(old(h.containers), h.containers, candidates, plans)
    ensures PhaseReported(cfg, recentAPI, h.images, h.atomicFailures, old(h.usedIDs), old(h.containers), h.containers,
                          candidates,
                          plans, results, survivors)
  {
    hide *;
    ghost var before, used := h.containers, h.usedIDs;
    var stopped, resultsByName;
    stopped, stops := StopPass(h, cfg, candidates, plans);
    ghost var mid := h.containers;
    StopErrorsOnly(h.atomicFailures, before, mid, candidates, plans, stopped);
    resultsByName, creates, survivors := CreatePass(h, cfg, candidates, plans, recentAPI, stopped);
    BlocksFit(candidates, plans, stops, creates, survivors);
    results := [];
    NoneListed(cfg, candidates, plans, resultsByName);
    for i := 0 to |candidates|
      modifies {}
      invariant Listed(candidates, resultsByName, i, results)
    {
      OneMoreListed(cfg, candidates, plans, resultsByName, i, results);
      if candidates[i].name in resultsByName {
        results := results + [resultsByName[candidates[i].name]];
      }
    }
    ListedResults(cfg, candidates, plans, resultsByName, results);
    OnlyRemovedAreCreated(candidates, stops, creates, stopped, resultsByName, results);
    AllReported(recentAPI, h.images, h.atomicFailures, used, before, mid, h.containers, cfg, candidates, plans, stopped,
                resultsByName, results, creates, survivors);
    SuccessReplacesAll(recentAPI, h.images, before, mid, h.containers, cfg, candidates, plans, stopped, resultsByName,
                       results, creates);
  }

  /** Whatever failed, each result says how its candidate's container now stands. */
  ghost predicate PhaseReported(cfg: UpdaterConfig, recentAPI: bool, images: map<string, string>, atomicFailures: bool,
                                used: set<string>, before: Containers, after: Containers,
                                candidates: seq<ContainerWithDeps>, plans: map<Name, Plan>,
                                results: seq<ResourceResult>, survivors: seq<string>)
    requires Planned(candidates, plans)
  {
    |results| == |candidates| == |survivors| &&
    forall k :: 0 <= k < |results| ==>
      var plan := plans[candidates[k].name];
      && Stands(cfg, recentAPI, images, used, after, plan, results[k], survivors[k])
      && (UniqueIDs(candidates, plans) ==> StillThere(atomicFailures, before, after, plan, results[k]))
  }

  lemma StopErrorsOnly(atomicFailures: bool, before: Containers, mid: Containers, candidates: seq<ContainerWithDeps>,
                       plans: map<Name, Plan>, stopped: map<Name, ResourceResult>)
    requires Planned(candidates, plans) && StopsReported(atomicFailures, before, mid, candidates, plans, 0, stopped)
    ensures OnlyStopErrors(candidates, stopped)
  {
    hide StillThere, UniqueIDs;
  }

  lemma AllReported(recentAPI: bool, images: map<string, string>, atomicFailures: bool, used: set<string>,
                    before: Containers, mid: Containers, after: Containers, cfg: UpdaterConfig,
                    candidates: seq<ContainerWithDeps>, plans: map<Name, Plan>, stopped: map<Name, ResourceResult>,
                    byName: map<Name, ResourceResult>, results: seq<ResourceResult>, creates: seq<seq<Op>>,
                    survivors: seq<string>)
    requires Planned(candidates, plans) && |creates| == |candidates|
    requires StoppedFrom(before, mid, candidates, plans, 0, stopped)
    requires StopsReported(atomicFailures, before, mid, candidates, plans, 0, stopped)
    requires FailuresStand(candidates, stopped, |candidates|, byName, creates)
    requires ReplacedUpTo(cfg, recentAPI, images, mid, after, candidates, plans, |candidates|, byName)
    requires CreatesReported(cfg, recentAPI, images, used, after, candidates, plans, |candidates|, byName, survivors)
    requires ErrorsFit(candidates, stopped, |candidates|, byName)
    requires Listed(candidates, byName, |candidates|, results)
    ensures KeepsOthers(before, after, candidates, plans)
    ensures PhaseReported(cfg, recentAPI, images, atomicFailures, used, before, after, candidates, plans, results,
                          survivors)
  {
    hide Stands, StillThere, ReplacedUpTo, StoppedFrom, StopsReported, FailuresStand, ErrorsFit, UniqueIDs, KeepsOthers,
      StopFailed, RemovalFailed;
    OthersAreKept(cfg, recentAPI, images, before, mid, after, candidates, plans, stopped, byName);
    forall k | 0 <= k < |results|
      ensures UniqueIDs(candidates, plans) ==>
                StillThere(atomicFailures, before, after, plans[candidates[k].name], results[k])
    {
      StillThereAtEnd(cfg, recentAPI, images, atomicFailures, before, mid, after, candidates, plans, stopped, byName,
                      creates, k);
    }
  }

  lemma OthersAreKept(cfg: UpdaterConfig, recentAPI: bool, images: map<string, string>, before: Containers,
                      mid: Containers, after: Containers, candidates: seq<ContainerWithDeps>, plans: map<Name, Plan>,
                      stopped: map<Name, ResourceResult>, byName: map<Name, ResourceResult>)
    requires Planned(candidates, plans) && StoppedFrom(before, mid, candidates, plans, 0, stopped)
    requires ReplacedUpTo(cfg, recentAPI, images, mid, after, candidates, plans, |candidates|, byName)
    ensures KeepsOthers(before, after, candidates, plans)
  {
    hide ReplacesOne;
  }

  lemma StillThereAtEnd(cfg: UpdaterConfig, recentAPI: bool, images: map<string, string>, atomicFailures: bool,
                        before: Containers, mid: Containers, after: Containers, candidates: seq<ContainerWithDeps>,
                        plans: map<Name, Plan>, stopped: map<Name, ResourceResult>, byName: map<Name, ResourceResult>,
                        creates: seq<seq<Op>>, k: nat)
    requires Planned(candidates, plans) && |creates| == |candidates| && k < |candidates|
    requires StoppedFrom(before, mid, candidates, plans, 0, stopped)
    requires StopsReported(atomicFailures, before, mid, candidates, plans, 0, stopped)
    requires FailuresStand(candidates, stopped, |candidates|, byName, creates)
    requires ReplacedUpTo(cfg, recentAPI, images, mid, after, candidates, plans, |candidates|, byName)
    requires ErrorsFit(candidates, stopped, |candidates|, byName)
    requires candidates[k].name in byName
    ensures UniqueIDs(candidates, plans) ==>
              StillThere(atomicFailures, before, after, plans[candidates[k].name], byName[candidates[k].name])
  {
    var name := candidates[k].name;
    assert name in stopped && ErrorFits(stopped[name], byName[name]);
    hide ReplacesOne, UniqueIDs;
  }

  ghost predicate Listed(candidates: seq<ContainerWithDeps>, byName: map<Name, ResourceResult>, i: nat,
                         results: seq<ResourceResult>)
  {
    i <= |candidates| && |results| == i &&
    forall k :: 0 <= k < i ==> candidates[k].name in byName && results[k] == byName[candidates[k].name]
  }

  /** A candidate's calls agree with its result: only a failed stop is not followed by a removal, and after a
      failed stop or removal nothing is called to create its successor. */
  predicate CallsTell(stop: seq<Op>, create: seq<Op>, r: ResourceResult) {
    (StopFailed(r) <==> |stop| == 1) && (StopFailed(r) || RemovalFailed(r) ==> create == [])
  }

  ghost predicate CreatesFollowRemovals(stops: seq<seq<Op>>, creates: seq<seq<Op>>, results: seq<ResourceResult>) {
    |stops| == |creates| == |results| &&
    forall i :: 0 <= i < |results| ==> CallsTell(stops[i], creates[i], results[i])
  }

  lemma OnlyRemovedAreCreated(candidates: seq<ContainerWithDeps>, stops: seq<seq<Op>>, creates: seq<seq<Op>>,
                              stopped: map<Name, ResourceResult>, byName: map<Name, ResourceResult>,
                              results: seq<ResourceResult>)
    requires |creates| == |candidates| && StopsTell(candidates, 0, stopped, stops)
    requires FailuresStand(candidates, stopped, |candidates|, byName, creates)
    requires ErrorsFit(candidates, stopped, |candidates|, byName)
    requires Listed(candidates, byName, |candidates|, results)
    ensures CreatesFollowRemovals(stops, creates, results)
  {
    forall i | 0 <= i < |results| ensures CallsTell(stops[i], creates[i], results[i]) {
      var name := candidates[i].name;
      assert StopTells(candidates[0 + i].name, stopped, stops[i]);
      assert ErrorFits(stopped[name], byName[name]);
    }
  }

  lemma BlocksFit(candidates: seq<ContainerWithDeps>, plans: map<Name, Plan>, stops: seq<seq<Op>>,
                  creates: seq<seq<Op>>, survivors: seq<string>)
    requires Planned(candidates, plans) && StopBlocks(candidates, plans, 0, stops)
    requires CreateBlocks(candidates, |candidates|, creates, survivors)
    ensures PhaseBlocks(candidates, plans, stops, creates, survivors)
  {
  }

  lemma NoneListed(cfg: UpdaterConfig, candidates: seq<ContainerWithDeps>, plans: map<Name, Plan>,
                   byName: map<Name, ResourceResult>)
    ensures Listed(candidates, byName, 0, [])
  {
  }

  lemma OneMoreListed(cfg: UpdaterConfig, candidates: seq<ContainerWithDeps>, plans: map<Name, Plan>,
                      byName: map<Name, ResourceResult>, i: nat, results: seq<ResourceResult>)
    requires Planned(candidates, plans) && CreateResults(cfg, candidates, plans, |candidates|, byName)
    requires i < |candidates| && Listed(candidates, byName, i, results)
    ensures candidates[i].name in byName
    ensures Listed(candidates, byName, i + 1, results + [byName[candidates[i].name]])
  {
  }

  lemma ListedResults(cfg: UpdaterConfig, candidates: seq<ContainerWithDeps>, plans: map<Name, Plan>,
                      byName: map<Name, ResourceResult>, results: seq<ResourceResult>)
    requires Planned(candidates, plans) && CreateResults(cfg, candidates, plans, |candidates|, byName)
    requires Listed(candidates, byName, |candidates|, results)
    ensures PhaseResults(cfg, candidates, plans, results)
  {
  }

  lemma SuccessReplacesAll(recentAPI: bool, images: map<string, string>, before: Containers, mid: Containers,
                           after: Containers, cfg: UpdaterConfig, candidates: seq<ContainerWithDeps>,
                           plans: map<Name, Plan>, stopped: map<Name, ResourceResult>,
                           byName: map<Name, ResourceResult>, results: seq<ResourceResult>, creates: seq<seq<Op>>)
    requires Planned(candidates, plans) && |creates| == |candidates|
    requires StoppedFrom(before, mid, candidates, plans, 0, stopped)
    requires FailuresStand(candidates, stopped, |candidates|, byName, creates)
    requires ReplacedUpTo(cfg, recentAPI, images, mid, after, candidates, plans, |candidates|, byName)
    requires Listed(candidates, byName, |candidates|, results)
    ensures NoneFailed(results) ==>
              AllReplaced(cfg, recentAPI, images, before, after, candidates, plans)
  {
    hide ReplacesOne;
    if NoneFailed(results) {
      forall k | 0 <= k < |candidates|
        ensures byName[candidates[k].name].status != Failed && OldID(candidates, plans, k) !in mid
      {
        assert results[k].status != Failed;
      }
    }
  }
}
