/**
 Replacing one standalone container: stop and remove it, create and start its successor, and on any
 failure clean up and bring the old image back.
 */
module Recreate {
  import opened Wrappers
  import opened DockerTypes
  import opened Strings
  import opened Settings
  import opened Host
  import opened Compat

  // ---------- What the successor is to be ----------

  function ContainerName(inspect: Inspect): string {
    TrimPrefix(inspect.name, "/")
  }

  const BLANK_ENDPOINT: Endpoint := Endpoint(None, [], [], map[], 0, "")

  function WantedEndpoint(endpoint: Option<Endpoint>, recentAPI: bool): Option<Endpoint> {
    var e := if endpoint.Some? then endpoint.value else BLANK_ENDPOINT;
    Some(if recentAPI then e else e.(macAddress := ""))
  }

  /** The endpoints to request: none when another container's network is shared, and no per-network
      MAC address on a daemon too old for it. */
  function WantedEndpoints(inspect: Inspect, recentAPI: bool): Endpoints {
    if IsContainerMode(inspect.hostConfig) then map[]
    else map n | n in inspect.networks :: WantedEndpoint(inspect.networks[n], recentAPI)
  }

  function SuccessorOptions(inspect: Inspect, newRef: string, labels: Labels, recentAPI: bool): CreateOptions {
    CreateOptions(ContainerName(inspect), Config(newRef, labels), inspect.hostConfig,
                  WantedEndpoints(inspect, recentAPI))
  }

  // ---------- What a successor keeps ----------

  /** An endpoint requested for one the old container had: all its settings, the MAC address only on a recent
      API; a nil one becomes a blank one. */
  ghost predicate KeepsEndpoint(was: Option<Endpoint>, recentAPI: bool, e: Endpoint) {
    match was
    case Some(w) =>
      && e.ipam == w.ipam && e.links == w.links && e.aliases == w.aliases && e.driverOpts == w.driverOpts
      && e.gwPriority == w.gwPriority && e.macAddress == if recentAPI then w.macAddress else ""
    case None =>
      && e.ipam.None? && e.links == [] && e.aliases == [] && e.driverOpts == map[] && e.gwPriority == 0
      && e.macAddress == ""
  }

  /** On exactly the networks of the old container, or on none when it shares another container's. */
  ghost predicate KeepsNetworks(inspect: Inspect, recentAPI: bool, endpoints: Endpoints) {
    if inspect.hostConfig.Some? && "container:" <= inspect.hostConfig.value.networkMode then endpoints == map[]
    else
      && endpoints.Keys == inspect.networks.Keys
      && forall n :: n in endpoints ==>
           endpoints[n].Some? && KeepsEndpoint(inspect.networks[n], recentAPI, endpoints[n].value)
  }

  /** With the same host configuration, or one of its networks filled in for a blank network mode. */
  ghost predicate KeepsHostConfig(inspect: Inspect, hostConfig: Option<HostConfig>) {
    || hostConfig == inspect.hostConfig
    || (NetworkMode(inspect.hostConfig) == "" && hostConfig.Some? && hostConfig.value.networkMode in inspect.networks &&
        hostConfig.value.links == if inspect.hostConfig.Some? then inspect.hostConfig.value.links else [])
  }

  lemma WantedKeepsNetworks(inspect: Inspect, recentAPI: bool)
    ensures KeepsNetworks(inspect, recentAPI, WantedEndpoints(inspect, recentAPI))
    ensures WantedEndpoints(inspect, recentAPI).Keys <= inspect.networks.Keys
  {
  }

  // ---------- How the daemon's state may change ----------

  /** `after` is `before` and one more container, created from `ref` under the inspected name and with
      the inspected host configuration. */
  ghost predicate AddsFrom(before: Containers, after: Containers, images: map<string, string>,
                           inspect: Inspect, ref: string, id: string)
  {
    && id !in before && id in after && after - {id} == before
    && after[id].config.image == ref && ref in images && after[id].imageID == images[ref]
    && (ContainerName(inspect) != "" ==> after[id].name == ContainerName(inspect))
    && KeepsHostConfig(inspect, after[id].hostConfig)
  }

  /** ... and it runs, attached to every network asked for. */
  ghost predicate RunsFrom(before: Containers, after: Containers, images: map<string, string>,
                           inspect: Inspect, recentAPI: bool, ref: string, id: string)
  {
    && AddsFrom(before, after, images, inspect, ref, id)
    && after[id].running && KeepsNetworks(inspect, recentAPI, after[id].endpoints)
  }

  /** The labels are kept, or refreshed for the image it is created from. */
  predicate HasSuccessorLabels(cfg: UpdaterConfig, inspect: Inspect, ref: string, c: Container) {
    c.config.labels in {InspectLabels(inspect), cfg.refreshLabels(InspectLabels(inspect), ref)}
  }

  /** Nothing that was there is gone or changed. */
  ghost predicate KeepsAll(before: Containers, after: Containers) {
    forall id :: id in before ==> id in after && after[id] == before[id]
  }

  // ---------- The trace ----------

  /** One of the calls created this container. */
  ghost predicate IsCreated(ops: seq<Op>, id: string) {
    exists op :: op in ops && op.Create? && op.created == Some(id)
  }

  /** Calls a creation makes, all for one candidate and one container, which one of them created. */
  ghost predicate CreationOps(ops: seq<Op>, owner: string, id: string) {
    && (forall op :: op in ops ==>
          && op.owner == owner && (op.Create? || ((op.Connect? || op.Start?) && op.id == id && id != ""))
          && (op.Create? ==> op.created == if id == "" then None else Some(id)))
    && (id != "" ==> IsCreated(ops, id))
  }

  /** Calls a replacement makes after the removal, all for one candidate, each to create a container or on one
      created so. */
  ghost predicate ReplaceOps(ops: seq<Op>, owner: string) {
    forall op :: op in ops ==>
      && op.owner == owner && (op.Create? || op.Connect? || op.Start? || (op.Remove? && op.force))
      && (op.Create? || IsCreated(ops, op.id))
  }

  /** Every container created along the way was force-removed, or is the one meant to survive. */
  ghost predicate CleansUp(ops: seq<Op>, owner: string, survivor: string) {
    forall op :: op in ops && op.Create? && op.created.Some? ==>
      (survivor != "" && op.created.value == survivor) || Op.Remove(owner, op.created.value, true) in ops
  }

  // ---------- The steps ----------

  datatype StopError = StopFailed | RemoveFailed

  method StopAndRemove(h: Host, cnt: Summary, ghost owner: string)
    returns (err: Option<StopError>, ghost ops: seq<Op>)
    requires h.Valid()
    modifies h`containers, h`trace
    ensures h.Valid() && h.trace == old(h.trace) + ops
    ensures ops == [Op.Stop(owner, cnt.id)] + if err == Some(StopFailed) then [] else [Op.Remove(owner, cnt.id, false)]
    ensures h.containers - {cnt.id} == old(h.containers) - {cnt.id}
    ensures err.None? ==> cnt.id in old(h.containers) && cnt.id !in h.containers
    ensures err.Some? && (err.value.StopFailed? || h.atomicFailures) && cnt.id in old(h.containers) ==>
              cnt.id in h.containers
    ensures cnt.id in h.containers ==> cnt.id in old(h.containers)
  {
    hide *;
    ghost var before := h.containers;
    ops := [Op.Stop(owner, cnt.id)];
    var ok := h.Stop(cnt.id, owner);
    if cnt.id in before { StopTouchesOne(before, cnt.id); }
    if !ok {
      return Some(StopFailed), ops;
    }
    ops := ops + [Op.Remove(owner, cnt.id, false)];
    ok := h.Remove(cnt.id, false, owner);
    return if ok then None else Some(RemoveFailed), ops;
  }

  lemma StopTouchesOne(containers: Containers, id: string)
    requires id in containers
    ensures var stopped := WithRunning(containers, id, false);
            id in stopped && stopped - {id} == containers - {id} && stopped - {id} - {id} == containers - {id}
  {
    assert WithRunning(containers, id, false) - {id} == containers - {id};
  }

  /** Creates and starts the successor. A blank ID means nothing was created; with an ID and no
      success, the created container is left for the caller to remove. */
  method CreateAndStart(h: Host, cfg: UpdaterConfig, inspect: Inspect, newRef: string, recentAPI: bool,
                        ghost owner: string)
    returns (createdID: string, ok: bool, ghost ops: seq<Op>)
    requires h.Valid()
    modifies h`containers, h`usedIDs, h`trace
    ensures h.Valid() && h.trace == old(h.trace) + ops && CreationOps(ops, owner, createdID)
    ensures createdID == "" ==> !ok && h.containers == old(h.containers) && h.usedIDs == old(h.usedIDs)
    ensures createdID != "" ==> createdID !in old(h.usedIDs) && ProperID(createdID)
    ensures createdID != "" ==> h.usedIDs == old(h.usedIDs) + {createdID}
    ensures createdID != "" ==> AddsFrom(old(h.containers), h.containers, h.images, inspect, newRef, createdID)
    ensures ok ==> createdID != "" && RunsFrom(old(h.containers), h.containers, h.images, inspect, recentAPI,
                                               newRef, createdID)
    ensures createdID != "" && createdID in h.containers ==>
      HasSuccessorLabels(cfg, inspect, newRef, h.containers[createdID])
  {
    hide *;
    ghost var before := h.containers;
    NoOps(owner);
    var labels := InspectLabels(inspect);
    var inspected: bool := *;
    if inspected {
      labels := cfg.refreshLabels(labels, newRef);
    }
    LabelsOfSuccessor(cfg, inspect, newRef);
    var prepared: bool := *;
    if !prepared {
      return "", false, [];
    }
    var options := SuccessorOptions(inspect, newRef, labels, recentAPI);
    var id, created, connects := ContainerCreate(h, options, recentAPI, owner);
    CreationTraced(options, owner, id, connects);
    ops := [CreateOp(owner, options, id)] + connects;
    createdID := id;
    if id != "" {
      SuccessorMade(before, h.containers, h.images, inspect, newRef, labels, recentAPI, created, id);
    }
    if !created {
      return id, false, ops;
    }
    ghost var made := h.containers;
    var started := h.Start(id, owner);
    ops := ops + [Op.Start(owner, id)];
    SuccessorStarted(before, made, h.containers, h.images, inspect, newRef, recentAPI, id);
    if !started {
      var running := h.ContainerRunning(id);
      if running.None? || !running.value {
        return id, false, ops;
      }
    }
    ok := *;   // the update event's recorder may refuse it, after all is done
  }

  lemma LabelsOfSuccessor(cfg: UpdaterConfig, inspect: Inspect, ref: string)
    ensures forall c: Container :: HasSuccessorLabels(cfg, inspect, ref, c) <==>
              c.config.labels == InspectLabels(inspect) ||
                c.config.labels == cfg.refreshLabels(InspectLabels(inspect), ref)
  {
  }

  lemma NoOps(owner: string)
    ensures CreationOps([], owner, "")
  {
  }

  lemma CreationTraced(options: CreateOptions, owner: string, id: string, connects: seq<Op>)
    requires OnlyConnects(connects, owner, id) && (id == "" ==> connects == [])
    ensures var ops := [CreateOp(owner, options, id)] + connects;
            CreationOps(ops, owner, id) && (id != "" ==> CreationOps(ops + [Op.Start(owner, id)], owner, id))
  {
    var create := CreateOp(owner, options, id);
    assert create in [create] + connects && create in [create] + connects + [Op.Start(owner, id)];
  }

  /** What a create call leaves, seen as the successor. */
  lemma SuccessorMade(before: Containers, after: Containers, images: map<string, string>, inspect: Inspect,
                      newRef: string, labels: Labels, recentAPI: bool, ok: bool, id: string)
    requires var options := SuccessorOptions(inspect, newRef, labels, recentAPI);
             if ok then CreatedAsRequested(before, after, images, options, recentAPI, id)
             else CreatedInPart(before, after, images, options, id)
    ensures AddsFrom(before, after, images, inspect, newRef, id) && after[id].config == Config(newRef, labels)
    ensures ok ==> KeepsNetworks(inspect, recentAPI, after[id].endpoints)
  {
    var options := SuccessorOptions(inspect, newRef, labels, recentAPI);
    assert id in after;
    WantedKeepsNetworks(inspect, recentAPI);
    hide ConnectedPrefix, IsPrimary, IsSplit, WantedEndpoints, CreatedFrom, AddsFrom, KeepsNetworks;
    if ok {
      var adjusted, extras :| IsSplit(options, recentAPI, adjusted, extras) &&
        CreatedFrom(before, after, images, adjusted, id) && after[id].endpoints == options.endpoints;
      AdjustedMade(before, after, images, inspect, options, recentAPI, adjusted, extras, id);
    } else {
      var adjusted, extras, connected :| IsSplit(options, false, adjusted, extras) &&
        CreatedFrom(before, after, images, adjusted, id) && |connected| < |extras| &&
        ConnectedPrefix(adjusted.endpoints, extras, connected, after[id].endpoints);
      AdjustedMade(before, after, images, inspect, options, false, adjusted, extras, id);
    }
  }

  lemma AdjustedMade(before: Containers, after: Containers, images: map<string, string>, inspect: Inspect,
                     options: CreateOptions, supportsMulti: bool, adjusted: CreateOptions, extras: Endpoints,
                     id: string)
    requires IsSplit(options, supportsMulti, adjusted, extras) && CreatedFrom(before, after, images, adjusted, id)
    requires options.name == ContainerName(inspect)
    requires options.hostConfig == inspect.hostConfig
    requires options.endpoints.Keys <= inspect.networks.Keys
    ensures AddsFrom(before, after, images, inspect, options.config.image, id) && after[id].config == options.config
  {
    SplitKeepsHostConfig(options, supportsMulti, adjusted, extras);
    hide IsPrimary, IsSplit, NetworkMode;
    assert after - {id} == before;
  }

  /** A split fills in a blank network mode with one of the requested networks, and changes no other. */
  lemma SplitKeepsHostConfig(options: CreateOptions, supportsMulti: bool, adjusted: CreateOptions, extras: Endpoints)
    requires IsSplit(options, supportsMulti, adjusted, extras)
    ensures adjusted == options.(endpoints := adjusted.endpoints, hostConfig := adjusted.hostConfig)
    ensures adjusted.hostConfig == options.hostConfig ||
            (NetworkMode(options.hostConfig) == "" && adjusted.hostConfig.Some? &&
             adjusted.hostConfig.value.networkMode in options.endpoints &&
             adjusted.hostConfig.value.links == if options.hostConfig.Some? then options.hostConfig.value.links else [])
  {
    hide IsPrimary;
  }

  lemma SuccessorStarted(before: Containers, made: Containers, after: Containers, images: map<string, string>,
                         inspect: Inspect, newRef: string, recentAPI: bool, id: string)
    requires AddsFrom(before, made, images, inspect, newRef, id)
    requires KeepsNetworks(inspect, recentAPI, made[id].endpoints)
    requires after == made || after == WithRunning(made, id, true)
    ensures AddsFrom(before, after, images, inspect, newRef, id) && after[id].config == made[id].config
    ensures after[id].running ==> RunsFrom(before, after, images, inspect, recentAPI, newRef, id)
    ensures after == WithRunning(made, id, true) ==> after[id].running
  {
    assert after - {id} == made - {id};
  }

  /** Force-removes what a failed creation left, if anything; failing at that changes no more. */
  method RemoveFailedCreated(h: Host, createdID: string, ghost owner: string) returns (ghost ops: seq<Op>)
    requires h.Valid()
    modifies h`containers, h`trace
    ensures h.Valid() && h.trace == old(h.trace) + ops
    ensures var id := TrimSpace(createdID);
      if id == "" then ops == [] && h.containers == old(h.containers)
      else ops == [Op.Remove(owner, id, true)] && h.containers in {old(h.containers), old(h.containers) - {id}}
  {
    var id := TrimSpace(createdID);
    if id == "" {
      return [];
    }
    var _ := h.Remove(id, true, owner);
    return [Op.Remove(owner, id, true)];
  }

  /** Creates and starts a replacement on the old image. */
  method Rollback(h: Host, cfg: UpdaterConfig, inspect: Inspect, recentAPI: bool, ghost owner: string)
    returns (ok: bool, ghost rollbackID: string, ghost ops: seq<Op>)
    requires h.Valid()
    modifies h`containers, h`usedIDs, h`trace
    ensures h.Valid() && h.trace == old(h.trace) + ops && ReplaceOps(ops, owner)
    ensures old(h.usedIDs) <= h.usedIDs && KeepsAll(old(h.containers), h.containers)
    ensures ok ==> rollbackID !in old(h.usedIDs) && CleansUp(ops, owner, rollbackID)
    ensures ok ==> RunsFrom(old(h.containers), h.containers, h.images, inspect, recentAPI,
                            TrimSpace(inspect.image), rollbackID)
    ensures ok ==> rollbackID in h.containers &&
                   HasSuccessorLabels(cfg, inspect, TrimSpace(inspect.image), h.containers[rollbackID])
    ensures !ok ==> CleansUp(ops, owner, "")
  {
    hide *;
    ghost var before := h.containers;
    var oldImageID := TrimSpace(inspect.image);
    NothingDone(before, owner);
    if oldImageID == "" {
      return false, "", [];
    }
    var createdID, created, creation := CreateAndStart(h, cfg, inspect, oldImageID, recentAPI, owner);
    CreationCleansUp(creation, owner, createdID);
    ops := creation;
    if createdID != "" {
      AddedKeepsAll(before, h.containers, h.images, inspect, oldImageID, createdID);
    }
    if created {
      return true, createdID, ops;
    }
    ProperIsTrimmed(createdID);
    var removal := RemoveFailedCreated(h, createdID, owner);
    assert creation + [] == creation;
    return false, "", ops + removal;
  }

  lemma NothingDone(before: Containers, owner: string)
    ensures KeepsAll(before, before) && ReplaceOps([], owner) && CleansUp([], owner, "")
  {
  }

  /** A creation leaves its own container or none to clean up, and its removal completes that. */
  lemma CreationCleansUp(creation: seq<Op>, owner: string, id: string)
    requires CreationOps(creation, owner, id)
    ensures ReplaceOps(creation, owner) && CleansUp(creation, owner, id)
    ensures id == "" ==> CleansUp(creation, owner, "")
    ensures id != "" ==>
      var all := creation + [Op.Remove(owner, id, true)]; ReplaceOps(all, owner) && CleansUp(all, owner, "")
  {
    var removal := Op.Remove(owner, id, true);
    assert removal in creation + [removal];
    forall op | op in creation + [removal] && op.Create? && op.created.Some?
      ensures op.created.value == id
    {
      assert op in creation;
    }
    if id != "" {
      hide CleansUp;
      CreatedStays(creation, [removal], id);
    }
  }

  lemma CreatedStays(a: seq<Op>, b: seq<Op>, id: string)
    ensures IsCreated(a, id) || IsCreated(b, id) ==> IsCreated(a + b, id)
  {
    if op :| op in a && op.Create? && op.created == Some(id) {
      assert op in a + b;
    } else if op :| op in b && op.Create? && op.created == Some(id) {
      assert op in a + b;
    }
  }

  lemma ReplaceOpsJoin(a: seq<Op>, b: seq<Op>, owner: string)
    requires ReplaceOps(a, owner) && ReplaceOps(b, owner)
    ensures ReplaceOps(a + b, owner)
  {
    forall op | op in a + b && !op.Create? ensures IsCreated(a + b, op.id) {
      CreatedStays(a, b, op.id);
    }
    hide IsCreated;
  }

  /** Adding a container, and even removing it again, keeps all the others. */
  lemma AddedKeepsAll(before: Containers, after: Containers, images: map<string, string>, inspect: Inspect,
                      ref: string, id: string)
    requires AddsFrom(before, after, images, inspect, ref, id)
    ensures KeepsAll(before, after) && KeepsAll(before, after - {id}) && id in after
  {
    forall k | k in before ensures k in after && after[k] == before[k] {
      assert k in after - {id};
    }
  }

  datatype Outcome = Replaced | RolledBack | RollbackFailed

  /** What the daemon holds after a replacement attempt, by outcome. Under a name the inspect response
      gives, the survivor is the only container added; the failed one cannot still hold the name. */
  ghost predicate OutcomeHolds(cfg: UpdaterConfig, before: Containers, after: Containers, images: map<string, string>,
                               inspect: Inspect, recentAPI: bool, newRef: string, outcome: Outcome, survivor: string)
  {
    && KeepsAll(before, after)
    && match outcome
       case Replaced =>
         && RunsFrom(before, after, images, inspect, recentAPI, newRef, survivor)
         && HasSuccessorLabels(cfg, inspect, newRef, after[survivor])
       case RolledBack =>
         && survivor !in before && survivor in after && after[survivor].running
         && after[survivor].config.image == TrimSpace(inspect.image)
         && TrimSpace(inspect.image) in images && after[survivor].imageID == images[TrimSpace(inspect.image)]
         && KeepsHostConfig(inspect, after[survivor].hostConfig)
         && KeepsNetworks(inspect, recentAPI, after[survivor].endpoints)
         && HasSuccessorLabels(cfg, inspect, TrimSpace(inspect.image), after[survivor])
         && (ContainerName(inspect) != "" ==>
               RunsFrom(before, after, images, inspect, recentAPI, TrimSpace(inspect.image), survivor))
       case RollbackFailed => true
  }

  method CreateStartOrRollback(h: Host, cfg: UpdaterConfig, inspect: Inspect, newRef: string, recentAPI: bool,
                               ghost owner: string)
    returns (outcome: Outcome, ghost survivor: string, ghost ops: seq<Op>)
    requires h.Valid()
    modifies h`containers, h`usedIDs, h`trace
    ensures h.Valid() && h.trace == old(h.trace) + ops && ReplaceOps(ops, owner)
    ensures old(h.usedIDs) <= h.usedIDs
    ensures OutcomeHolds(cfg, old(h.containers), h.containers, h.images, inspect, recentAPI, newRef, outcome, survivor)
    ensures CleansUp(ops, owner, survivor)
    ensures outcome.RollbackFailed? ==> survivor == ""
    ensures !outcome.RollbackFailed? ==> survivor !in old(h.usedIDs)
  {
    hide *;
    ghost var before := h.containers;
    NamesStayUnique(h);
    var createdID, created, creation := CreateAndStart(h, cfg, inspect, newRef, recentAPI, owner);
    CreationCleansUp(creation, owner, createdID);
    NothingDone(before, owner);
    ghost var made := h.containers;
    if createdID != "" {
      AddedKeepsAll(before, made, h.images, inspect, newRef, createdID);
    }
    if created {
      ReplacedHolds(cfg, before, made, h.images, inspect, recentAPI, newRef, createdID);
      return Replaced, createdID, creation;
    }
    ProperIsTrimmed(createdID);
    var removal := RemoveFailedCreated(h, createdID, owner);
    ghost var cleaned := h.containers;
    var ok, rollbackID, restart := Rollback(h, cfg, inspect, recentAPI, owner);
    ops := creation + removal + restart;
    survivor := if ok then rollbackID else "";
    FailedThenRestarted(creation, removal, restart, owner, createdID, survivor);
    KeepsAllTransitive(before, cleaned, h.containers);
    if ok {
      NamesStayUnique(h);
      RolledBackHolds(cfg, before, made, cleaned, h.containers, h.images, inspect, recentAPI, newRef, createdID,
                      rollbackID);
      return RolledBack, survivor, ops;
    }
    FailureHolds(cfg, before, h.containers, h.images, inspect, recentAPI, newRef, survivor);
    return RollbackFailed, survivor, ops;
  }

  lemma KeepsAllTransitive(a: Containers, b: Containers, c: Containers)
    requires KeepsAll(a, b) && KeepsAll(b, c)
    ensures KeepsAll(a, c)
  {
  }

  lemma NamesStayUnique(h: Host)
    requires h.Valid()
    ensures UniqueContainerNames(h.containers) && h.containers.Keys <= h.usedIDs
  {
  }

  lemma ReplacedHolds(cfg: UpdaterConfig, before: Containers, after: Containers, images: map<string, string>,
                      inspect: Inspect, recentAPI: bool, newRef: string, id: string)
    requires KeepsAll(before, after) && RunsFrom(before, after, images, inspect, recentAPI, newRef, id)
    requires id in after && HasSuccessorLabels(cfg, inspect, newRef, after[id])
    ensures OutcomeHolds(cfg, before, after, images, inspect, recentAPI, newRef, Replaced, id)
  {
  }

  lemma FailureHolds(cfg: UpdaterConfig, before: Containers, after: Containers, images: map<string, string>,
                     inspect: Inspect, recentAPI: bool, newRef: string, survivor: string)
    requires KeepsAll(before, after)
    ensures OutcomeHolds(cfg, before, after, images, inspect, recentAPI, newRef, RollbackFailed, survivor)
  {
  }

  /** The failed creation, its removal and the restart together clean up after themselves. */
  lemma FailedThenRestarted(creation: seq<Op>, removal: seq<Op>, restart: seq<Op>, owner: string, id: string,
                            survivor: string)
    requires CreationOps(creation, owner, id)
    requires removal == if id == "" then [] else [Op.Remove(owner, id, true)]
    requires ReplaceOps(restart, owner) && CleansUp(restart, owner, survivor)
    ensures var all := creation + removal + restart; ReplaceOps(all, owner) && CleansUp(all, owner, survivor)
  {
    var all := creation + removal + restart;
    CreationCleansUp(creation, owner, id);
    assert creation + [] == creation;
    ReplaceOpsJoin(creation + removal, restart, owner);
    hide ReplaceOps, IsCreated;
    forall op | op in all && op.Create? && op.created.Some?
      ensures (survivor != "" && op.created.value == survivor) || Op.Remove(owner, op.created.value, true) in all
    {
      if op in restart {
        assert op.created.value == survivor || Op.Remove(owner, op.created.value, true) in restart;
      } else {
        assert op in creation;
        assert Op.Remove(owner, id, true) in removal;
      }
    }
  }

  /** A restart under the old name can only have succeeded if the failed container was gone. */
  lemma RolledBackHolds(cfg: UpdaterConfig, before: Containers, made: Containers, cleaned: Containers,
                        after: Containers, images: map<string, string>, inspect: Inspect, recentAPI: bool,
                        newRef: string, createdID: string, rollbackID: string)
    requires if createdID == "" then made == before else AddsFrom(before, made, images, inspect, newRef, createdID)
    requires cleaned == made || (createdID != "" && cleaned == made - {createdID})
    requires RunsFrom(cleaned, after, images, inspect, recentAPI, TrimSpace(inspect.image), rollbackID)
    requires UniqueContainerNames(after) && KeepsAll(before, after) && rollbackID !in before && rollbackID in after
    requires HasSuccessorLabels(cfg, inspect, TrimSpace(inspect.image), after[rollbackID])
    ensures OutcomeHolds(cfg, before, after, images, inspect, recentAPI, newRef, RolledBack, rollbackID)
  {
    hide WantedEndpoints, ContainerName, HasSuccessorLabels, KeepsNetworks, KeepsHostConfig;
    if createdID != "" && cleaned == made {
      assert createdID in after && after[createdID] == made[createdID] by {
        assert createdID in after - {rollbackID};
      }
    }
  }

  datatype StandaloneOutcome = SelfUpdateRefused | NoClient | NotStopped | NotRemoved | Attempted(outcome: Outcome)

  /** The host after an update attempt, by what was reported: a refusal touches nothing; a stop or
      remove error leaves the old container (given failure-atomic removes) and creates nothing;
      otherwise the old container is gone and the outcome says what took its place. */
  ghost predicate ReportMatchesHost(cfg: UpdaterConfig, before: Containers, after: Containers,
                                    images: map<string, string>, atomicFailures: bool, cnt: Summary, inspect: Inspect,
                                    recentAPI: bool, newRef: string, report: StandaloneOutcome, survivor: string)
  {
    match report
    case SelfUpdateRefused => after == before
    case NoClient => after == before
    case NotStopped => after - {cnt.id} == before - {cnt.id} && (cnt.id in before ==> cnt.id in after)
    case NotRemoved =>
      after - {cnt.id} == before - {cnt.id} && (atomicFailures && cnt.id in before ==> cnt.id in after)
    case Attempted(outcome) =>
      cnt.id in before &&
      OutcomeHolds(cfg, before - {cnt.id}, after, images, inspect, recentAPI, newRef, outcome, survivor)
  }

  method UpdateStandaloneContainer(h: Host, cfg: UpdaterConfig, cnt: Summary, inspect: Inspect, newRef: string,
                                   recentAPI: bool, ghost owner: string)
    returns (report: StandaloneOutcome, ghost survivor: string, ghost ops: seq<Op>)
    requires h.Valid()
    modifies h`containers, h`usedIDs, h`trace
    ensures h.Valid() && h.trace == old(h.trace) + ops
    ensures ReportMatchesHost(cfg, old(h.containers), h.containers, h.images, h.atomicFailures, cnt, inspect, recentAPI,
                              newRef, report, survivor)
    ensures report.SelfUpdateRefused? <==> cfg.policy.isSelfUpdateTarget(InspectLabels(inspect))
    ensures CleansUp(ops, owner, survivor)
    ensures !report.Attempted? ==> forall op :: op in ops ==> !op.Create?
    ensures report.Attempted? && !report.outcome.RollbackFailed? ==> survivor !in old(h.usedIDs)
  {
    hide *;
    ghost var before := h.containers;
    survivor := "";
    NothingDone(before, owner);
    NotAttempted(cfg, before, before, h.images, h.atomicFailures, cnt, inspect, recentAPI, newRef, "");
    if cfg.policy.isSelfUpdateTarget(InspectLabels(inspect)) {
      return SelfUpdateRefused, survivor, [];
    }
    var connected: bool := *;
    if !connected {
      return NoClient, survivor, [];
    }
    var err, removal := StopAndRemove(h, cnt, owner);
    NotAttempted(cfg, before, h.containers, h.images, h.atomicFailures, cnt, inspect, recentAPI, newRef, "");
    RemovalCreatesNothing(removal, [], owner, survivor);
    assert removal + [] == removal;
    if err.Some? {
      return if err.value.StopFailed? then NotStopped else NotRemoved, survivor, removal;
    }
    ghost var mid := h.containers;
    RemovedExactly(before, mid, cnt.id);
    var outcome, kept, ops' := CreateStartOrRollback(h, cfg, inspect, newRef, recentAPI, owner);
    RemovalCreatesNothing(removal, ops', owner, kept);
    AttemptReported(cfg, before, h.containers, h.images, h.atomicFailures, cnt, inspect, recentAPI, newRef, outcome,
                    kept);
    return Attempted(outcome), kept, removal + ops';
  }

  lemma NotAttempted(cfg: UpdaterConfig, before: Containers, after: Containers, images: map<string, string>,
                     atomicFailures: bool, cnt: Summary, inspect: Inspect, recentAPI: bool, newRef: string,
                     survivor: string)
    ensures var matches := (report: StandaloneOutcome) =>
        ReportMatchesHost(cfg, before, after, images, atomicFailures, cnt, inspect, recentAPI, newRef, report,
                          survivor);
      && (after == before ==> matches(SelfUpdateRefused) && matches(NoClient))
      && (after - {cnt.id} == before - {cnt.id} ==>
            && ((cnt.id in before ==> cnt.id in after) ==> matches(NotStopped))
            && ((atomicFailures && cnt.id in before ==> cnt.id in after) ==> matches(NotRemoved)))
  {
  }

  lemma AttemptReported(cfg: UpdaterConfig, before: Containers, after: Containers, images: map<string, string>,
                        atomicFailures: bool, cnt: Summary, inspect: Inspect, recentAPI: bool, newRef: string,
                        outcome: Outcome, survivor: string)
    requires cnt.id in before
    requires OutcomeHolds(cfg, before - {cnt.id}, after, images, inspect, recentAPI, newRef, outcome, survivor)
    ensures ReportMatchesHost(cfg, before, after, images, atomicFailures, cnt, inspect, recentAPI, newRef,
                              Attempted(outcome), survivor)
  {
  }

  lemma RemovedExactly(before: Containers, after: Containers, id: string)
    requires after - {id} == before - {id} && id !in after
    ensures after == before - {id}
  {
    assert after - {id} == after;
  }

  lemma RemovalCreatesNothing(removal: seq<Op>, ops: seq<Op>, owner: string, survivor: string)
    requires forall op :: op in removal ==> !op.Create?
    requires CleansUp(ops, owner, survivor)
    ensures CleansUp(removal + ops, owner, survivor)
  {
    var all := removal + ops;
    forall op | op in all && op.Create? && op.created.Some?
      ensures (survivor != "" && op.created.value == survivor) || Op.Remove(owner, op.created.value, true) in all
    {
      assert op in ops;
      assert op.created.value == survivor || Op.Remove(owner, op.created.value, true) in ops;
    }
  }
}
