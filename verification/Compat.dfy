/**
 Creating a container on daemons that accept a single network endpoint at create time: the primary
 endpoint goes into the create call, the others are connected afterwards in name order.
 */
module Compat {
  import opened Wrappers
  import opened DockerTypes
  import opened Strings
  import opened Host

  function NetworkMode(hostConfig: Option<HostConfig>): string {
    if hostConfig.Some? then TrimSpace(hostConfig.value.networkMode) else ""
  }

  /** The network mode names a non-nil endpoint. */
  predicate ModeIsEndpoint(hostConfig: Option<HostConfig>, endpoints: Endpoints) {
    var mode := NetworkMode(hostConfig);
    mode != "" && mode in endpoints && endpoints[mode].Some?
  }

  /** The endpoint the container is created with: the one its network mode names, or else the first
      by name; blank when there is none. */
  ghost predicate IsPrimary(primary: string, hostConfig: Option<HostConfig>, endpoints: Endpoints) {
    if ModeIsEndpoint(hostConfig, endpoints) then primary == NetworkMode(hostConfig)
    else if endpoints == map[] then primary == ""
    else primary in endpoints && forall n :: n in endpoints && n != primary ==> Less(primary, n)
  }

  method ResolvePrimaryNetwork(hostConfig: Option<HostConfig>, endpoints: Endpoints) returns (primary: string)
    ensures IsPrimary(primary, hostConfig, endpoints)
    ensures primary != "" ==> primary in endpoints
  {
    if hostConfig.Some? {
      var mode := TrimSpace(hostConfig.value.networkMode);
      if mode != "" && mode in endpoints && endpoints[mode].Some? {
        return mode;
      }
    }
    var names := SortedKeys(endpoints.Keys);
    if |names| == 0 {
      NoElements(names);
      return "";
    }
    assert names[0] in Elements(names);
    forall n | n in endpoints && n != names[0] ensures Less(names[0], n) {
      assert n in Elements(names);
      FirstIsLeast(names, n);
    }
    return names[0];
  }

  /** Which create call and which later connects a request is split into. */
  ghost predicate IsSplit(options: CreateOptions, supportsMulti: bool, adjusted: CreateOptions, extras: Endpoints) {
    exists primary :: IsPrimary(primary, options.hostConfig, options.endpoints) &&
      if supportsMulti || |options.endpoints| <= 1 || primary == "" then
        adjusted == options && extras == map[]
      else
        && primary in options.endpoints
        && extras == options.endpoints - {primary}
        && adjusted == options.(endpoints := map[primary := options.endpoints[primary]],
                                hostConfig := Some(HostConfigFor(options.hostConfig, primary)))
  }

  /** A split request names its primary network as mode where it had none. */
  function HostConfigFor(hostConfig: Option<HostConfig>, primary: string): HostConfig {
    if hostConfig.None? then HostConfig(primary, [])
    else if NetworkMode(hostConfig) == "" then hostConfig.value.(networkMode := primary)
    else hostConfig.value
  }

  method PrepareCreateOptions(options: CreateOptions, supportsMulti: bool)
    returns (adjusted: CreateOptions, extras: Endpoints)
    ensures IsSplit(options, supportsMulti, adjusted, extras)
  {
    var primary := ResolvePrimaryNetwork(options.hostConfig, options.endpoints);
    if supportsMulti || |options.endpoints| <= 1 || primary == "" {
      return options, map[];
    }
    adjusted := options;
    if adjusted.hostConfig.None? {
      adjusted := adjusted.(hostConfig := Some(HostConfig("", [])));
    }
    if TrimSpace(adjusted.hostConfig.value.networkMode) == "" {
      adjusted := adjusted.(hostConfig := Some(adjusted.hostConfig.value.(networkMode := primary)));
    }
    adjusted := adjusted.(endpoints := map[primary := options.endpoints[primary]]);
    extras := map n | n in options.endpoints && n != primary :: options.endpoints[n];
    assert extras == options.endpoints - {primary};
  }

  /** The primary endpoint and the extras are a disjoint partition of the requested ones. */
  lemma SplitIsPartition(options: CreateOptions, supportsMulti: bool, adjusted: CreateOptions, extras: Endpoints)
    requires IsSplit(options, supportsMulti, adjusted, extras)
    ensures adjusted.endpoints.Keys !! extras.Keys
    ensures adjusted.endpoints + extras == options.endpoints
    ensures extras != map[] ==> |adjusted.endpoints| == 1
    ensures adjusted.name == options.name && adjusted.config == options.config
  {
  }

  /** The given endpoints whose names are listed. */
  ghost function Only(endpoints: Endpoints, names: seq<string>): Endpoints {
    map n | n in endpoints && n in names :: endpoints[n]
  }

  ghost predicate ConnectedPrefix(before: Endpoints, extras: Endpoints, names: seq<string>, after: Endpoints) {
    Increasing(names) && (forall n :: n in names ==> n in extras) &&
    (forall n, m :: n in names && m in extras && m !in names ==> Less(n, m)) &&
    after == before + Only(extras, names)
  }

  ghost predicate OnlyConnects(ops: seq<Op>, owner: string, id: string) {
    forall op :: op in ops ==> op.Connect? && op.owner == owner && op.id == id
  }

  /** Connects the extra networks in name order, up to the first that fails; without an ID or without
      extras there is nothing to do. */
  method ConnectExtraNetworks(h: Host, id: string, extras: Endpoints, ghost owner: string)
    returns (ok: bool, ghost connected: seq<string>, ghost ops: seq<Op>)
    requires h.Valid()
    modifies h`containers, h`trace
    ensures h.Valid() && h.trace == old(h.trace) + ops && OnlyConnects(ops, owner, id)
    ensures Connects(old(h.containers), h.containers, id, extras, ok, connected)
    ensures TrimSpace(id) == "" ==> ops == []
  {
    ops, connected := [], [];
    ghost var before := h.containers;
    NoConnects(before, owner, id, extras);
    hide *;
    if TrimSpace(id) == "" || |extras| == 0 {
      return true, [], [];
    }
    var names := SortedKeys(extras.Keys);
    NoneConnected(before, id, extras, names);
    for i := 0 to |names|
      invariant h.Valid() && connected == names[..i] && Progress(before, h.containers, id, extras, names, i)
      invariant h.trace == old(h.trace) + ops && OnlyConnects(ops, owner, id)
    {
      PrefixConnects(before, h.containers, id, extras, names, i);
      OneMore(before, h.containers, id, extras, names, i);
      OneMoreOp(ops, owner, id, names[i]);
      ok := h.NetworkConnect(id, names[i], extras[names[i]], owner);
      ops := ops + [Op.Connect(owner, id, names[i])];
      if !ok {
        return;
      }
      connected := connected + [names[i]];
    }
    PrefixConnects(before, h.containers, id, extras, names, |names|);
    return true, connected, ops;
  }

  /** Without an ID or without extras nothing is done; a container that does not exist is not connected;
      one that does has its extras connected. */
  ghost predicate Connects(before: Containers, after: Containers, id: string, extras: Endpoints, ok: bool,
                           connected: seq<string>)
  {
    && (TrimSpace(id) == "" || extras == map[] ==> ok && after == before)
    && (id !in before ==> after == before && (ok ==> TrimSpace(id) == "" || extras == map[]))
    && (id in before && TrimSpace(id) != "" ==> ExtrasConnected(before, after, id, extras, ok, connected))
  }

  /** The container is as before but for a name-sorted prefix of the extras, all of them on success. */
  ghost predicate ExtrasConnected(before: Containers, after: Containers, id: string, extras: Endpoints, ok: bool,
                                  connected: seq<string>)
  {
    && id in before && id in after && after == WithEndpoints(before, id, after[id].endpoints)
    && ConnectedPrefix(before[id].endpoints, extras, connected, after[id].endpoints)
    && (if ok then after[id].endpoints == before[id].endpoints + extras else |connected| < |extras|)
  }

  lemma NoConnects(before: Containers, owner: string, id: string, extras: Endpoints)
    ensures OnlyConnects([], owner, id)
    ensures TrimSpace(id) == "" || |extras| == 0 ==> Connects(before, before, id, extras, true, [])
  {
    assert |extras| == 0 ==> extras == map[];
    if id in before && |extras| == 0 {
      assert before[id].endpoints + extras == before[id].endpoints;
      assert before[id].endpoints + Only(extras, []) == before[id].endpoints;
    }
  }

  lemma ExtrasParts(before: Containers, after: Containers, id: string, extras: Endpoints, ok: bool,
                    connected: seq<string>)
    requires Connects(before, after, id, extras, ok, connected) && id in before && ProperID(id)
    ensures id in after && after == WithEndpoints(before, id, after[id].endpoints)
    ensures ConnectedPrefix(before[id].endpoints, extras, connected, after[id].endpoints)
    ensures if ok then after[id].endpoints == before[id].endpoints + extras else |connected| < |extras|
  {
  }

  lemma ProperIsTrimmed(id: string)
    requires id == "" || ProperID(id)
    ensures TrimSpace(id) == id
  {
  }

  /** The first `i` of the sorted extra networks are connected; to a container that does not exist none
      is. */
  ghost predicate Progress(before: Containers, now: Containers, id: string, extras: Endpoints,
                           names: seq<string>, i: nat)
  {
    && i <= |names| && Increasing(names) && Elements(names) == extras.Keys
    && if id in before then now == WithEndpoints(before, id, before[id].endpoints + Only(extras, names[..i]))
       else i == 0 && now == before
  }

  lemma NoneConnected(before: Containers, id: string, extras: Endpoints, names: seq<string>)
    requires Increasing(names) && Elements(names) == extras.Keys
    ensures Progress(before, before, id, extras, names, 0)
  {
    if id in before { assert before[id].endpoints + Only(extras, []) == before[id].endpoints; }
  }

  lemma OneMore(before: Containers, now: Containers, id: string, extras: Endpoints, names: seq<string>, i: nat)
    requires Progress(before, now, id, extras, names, i) && i < |names|
    ensures names[i] in extras && names[..i + 1] == names[..i] + [names[i]] && (id in now <==> id in before)
    ensures id in now ==>
      Progress(before, WithEndpoints(now, id, now[id].endpoints[names[i] := extras[names[i]]]), id, extras, names,
               i + 1)
  {
    assert names[i] in Elements(names);
    assert names[..i + 1] == names[..i] + [names[i]];
    if id in before {
      var base := before[id].endpoints;
      OneMoreEndpoint(base, extras, names[..i], names[i]);
      EndpointsTwice(before, id, base + Only(extras, names[..i]), base + Only(extras, names[..i + 1]));
    }
  }

  lemma OneMoreEndpoint(base: Endpoints, extras: Endpoints, names: seq<string>, n: string)
    requires n in extras
    ensures base + Only(extras, names + [n]) == (base + Only(extras, names))[n := extras[n]]
  {
  }

  lemma EndpointsTwice(containers: Containers, id: string, e: Endpoints, f: Endpoints)
    requires id in containers
    ensures WithEndpoints(WithEndpoints(containers, id, e), id, f) == WithEndpoints(containers, id, f)
  {
  }

  lemma OneMoreOp(ops: seq<Op>, owner: string, id: string, network: string)
    requires OnlyConnects(ops, owner, id)
    ensures OnlyConnects(ops + [Op.Connect(owner, id, network)], owner, id)
  {
  }

  /** What the progress made so far comes to if the next connect fails, or if none is left. */
  lemma PrefixConnects(before: Containers, now: Containers, id: string, extras: Endpoints,
                       names: seq<string>, k: nat)
    requires Progress(before, now, id, extras, names, k) && TrimSpace(id) != "" && |extras| != 0
    ensures k < |names| ==> Connects(before, now, id, extras, false, names[..k])
    ensures k == |names| ==> names[..k] == names && Connects(before, now, id, extras, true, names)
  {
    forall n | n in names[..k] ensures n in extras {
      assert n in Elements(names);
    }
    forall n, m | n in names[..k] && m in extras && m !in names[..k] ensures Less(n, m) {
      assert m in Elements(names);
      var i :| 0 <= i < k && names[i] == n;
      var j :| 0 <= j < |names| && names[j] == m;
      assert forall l :: 0 <= l < k ==> names[..k][l] == names[l];
    }
    IncreasingCount(names);
    if k == |names| {
      assert names[..k] == names;
      forall n | n in extras ensures n in names { assert n in Elements(names); }
      assert Only(extras, names) == extras;
    }
  }

  lemma {:induction false} IncreasingCount(names: seq<string>)
    requires Increasing(names)
    ensures |Elements(names)| == |names|
  {
    if names != [] {
      RestElements(names);
      IncreasingCount(names[1..]);
    }
  }

  /** The container a successful create leaves, whichever way it was made: exactly the request,
      with the host config the split gives it. */
  ghost predicate CreatedAsRequested(before: Containers, after: Containers, images: map<string, string>,
                                     options: CreateOptions, supportsMulti: bool, id: string)
  {
    exists adjusted, extras :: IsSplit(options, supportsMulti, adjusted, extras) &&
      CreatedFrom(before, after, images, adjusted, id) && after[id].endpoints == options.endpoints
  }

  /** The half-connected container a failed connect leaves: the primary endpoint and the first few
      extras by name. */
  ghost predicate CreatedInPart(before: Containers, after: Containers, images: map<string, string>,
                                options: CreateOptions, id: string)
  {
    exists adjusted, extras, connected :: IsSplit(options, false, adjusted, extras) &&
      CreatedFrom(before, after, images, adjusted, id) && |connected| < |extras| &&
      ConnectedPrefix(adjusted.endpoints, extras, connected, after[id].endpoints)
  }

  /** One container more than before, made from `options` but for its endpoints. */
  ghost predicate CreatedFrom(before: Containers, after: Containers, images: map<string, string>,
                              options: CreateOptions, id: string)
  {
    id in after && Created(before, after, images, options.(endpoints := after[id].endpoints), id)
  }

  /** The create call that returned `id`, blank when it failed. */
  function CreateOp(owner: string, options: CreateOptions, id: string): Op {
    Op.Create(owner, options.name, options.config.image, if id == "" then None else Some(id))
  }

  /** Creates a container with all its networks. The ID of one that could not be fully connected is
      still returned, for the caller to clean up; a blank ID means nothing was created. */
  method ContainerCreate(h: Host, options: CreateOptions, supportsMulti: bool, ghost owner: string)
    returns (id: string, ok: bool, ghost connects: seq<Op>)
    requires h.Valid()
    modifies h`containers, h`usedIDs, h`trace
    ensures h.Valid()
    ensures ok ==> id != "" && CreatedAsRequested(old(h.containers), h.containers, h.images, options, supportsMulti, id)
    ensures !ok && id != "" ==> !supportsMulti && CreatedInPart(old(h.containers), h.containers, h.images, options, id)
    ensures id == "" ==> h.containers == old(h.containers) && h.usedIDs == old(h.usedIDs) && connects == []
    ensures id != "" ==> id !in old(h.usedIDs) && ProperID(id) && h.usedIDs == old(h.usedIDs) + {id}
    ensures h.trace == old(h.trace) + [CreateOp(owner, options, id)] + connects && OnlyConnects(connects, owner, id)
  {
    hide *;
    var adjusted, extras := PrepareCreateOptions(options, supportsMulti);
    SplitIsPartition(options, supportsMulti, adjusted, extras);
    ghost var before := h.containers;
    var created := h.Create(adjusted, owner);
    id := if created.Some? then created.value else "";
    connects := [];
    CreateTraced(owner, options, adjusted, created);
    if created.None? {
      return "", false, [];
    }
    ghost var alone := h.containers;
    CreatedAlone(before, alone, h.images, adjusted, id);
    if |extras| == 0 {
      NoExtras(adjusted.endpoints, extras);
      RequestMet(before, alone, alone, h.images, options, supportsMulti, adjusted, extras, id);
      return id, true, [];
    }
    ghost var connected;
    ProperIsTrimmed(id);
    ok, connected, connects := ConnectExtraNetworks(h, id, extras, owner);
    ExtrasParts(alone, h.containers, id, extras, ok, connected);
    if ok {
      RequestMet(before, alone, h.containers, h.images, options, supportsMulti, adjusted, extras, id);
    } else {
      RequestMetInPart(before, alone, h.containers, h.images, options, supportsMulti, adjusted, extras, connected, id);
    }
  }

  lemma CreateTraced(owner: string, options: CreateOptions, adjusted: CreateOptions, created: Option<string>)
    requires adjusted.name == options.name && adjusted.config == options.config
    requires created.Some? ==> ProperID(created.value)
    ensures var id := if created.Some? then created.value else "";
      && Op.Create(owner, adjusted.name, adjusted.config.image, created) == CreateOp(owner, options, id)
      && OnlyConnects([], owner, id)
      && (created.Some? ==> id != "" && TrimSpace(id) != "")
  {
  }

  lemma NoExtras(primary: Endpoints, extras: Endpoints)
    requires |extras| == 0
    ensures primary + extras == primary
  {
    assert extras == map[];
  }

  lemma CreatedAlone(before: Containers, alone: Containers, images: map<string, string>,
                     options: CreateOptions, id: string)
    requires Created(before, alone, images, options, id)
    ensures id in alone && alone[id].endpoints == options.endpoints
    ensures CreatedFrom(before, alone, images, options, id)
    ensures alone == WithEndpoints(alone, id, alone[id].endpoints)
  {
    assert options.(endpoints := alone[id].endpoints) == options;
  }

  /** The old-daemon path refines the single create call: it ends with the very container that call
      would have made, except that a request naming no network mode gets its primary network as one. */
  lemma SplitRefinesSingleCall(before: Containers, after: Containers, images: map<string, string>,
                               options: CreateOptions, supportsMulti: bool, id: string)
    returns (single: Containers)
    requires CreatedAsRequested(before, after, images, options, supportsMulti, id)
    ensures Created(before, single, images, options, id)
    ensures after == single[id := single[id].(hostConfig := after[id].hostConfig)]
    ensures supportsMulti || |options.endpoints| <= 1 || NetworkMode(options.hostConfig) != "" ==> after == single
  {
    var adjusted, extras :| IsSplit(options, supportsMulti, adjusted, extras) &&
      CreatedFrom(before, after, images, adjusted, id) && after[id].endpoints == options.endpoints;
    SplitKeepsRest(options, supportsMulti, adjusted, extras);
    hide IsSplit, NetworkMode;
    single := before[id := CreatedContainer(options, after[id].name, images[options.config.image])];
  }

  /** A split changes nothing but the endpoints and a blank network mode. */
  lemma SplitKeepsRest(options: CreateOptions, supportsMulti: bool, adjusted: CreateOptions, extras: Endpoints)
    requires IsSplit(options, supportsMulti, adjusted, extras)
    ensures adjusted == options.(endpoints := adjusted.endpoints, hostConfig := adjusted.hostConfig)
    ensures supportsMulti || |options.endpoints| <= 1 || NetworkMode(options.hostConfig) != "" ==>
              adjusted.hostConfig == options.hostConfig
  {
    hide IsPrimary;
  }

  lemma RequestMet(before: Containers, alone: Containers, after: Containers, images: map<string, string>,
                   options: CreateOptions, supportsMulti: bool, adjusted: CreateOptions, extras: Endpoints, id: string)
    requires IsSplit(options, supportsMulti, adjusted, extras) && adjusted.endpoints + extras == options.endpoints
    requires CreatedFrom(before, alone, images, adjusted, id)
    requires id in alone && id in after && after == WithEndpoints(alone, id, after[id].endpoints)
    requires after[id].endpoints == adjusted.endpoints + extras
    ensures CreatedAsRequested(before, after, images, options, supportsMulti, id)
  {
    hide IsSplit, CreatedFrom;
    StillCreatedFrom(before, alone, after, images, adjusted, id);
  }

  lemma StillCreatedFrom(before: Containers, alone: Containers, after: Containers, images: map<string, string>,
                         options: CreateOptions, id: string)
    requires CreatedFrom(before, alone, images, options, id)
    requires id in alone && id in after && after == WithEndpoints(alone, id, after[id].endpoints)
    ensures CreatedFrom(before, after, images, options, id)
  {
    var created := options.(endpoints := after[id].endpoints);
    assert after == before[id := CreatedContainer(created, after[id].name, images[options.config.image])];
  }

  lemma RequestMetInPart(before: Containers, alone: Containers, after: Containers, images: map<string, string>,
                         options: CreateOptions, supportsMulti: bool, adjusted: CreateOptions, extras: Endpoints,
                         connected: seq<string>, id: string)
    requires IsSplit(options, supportsMulti, adjusted, extras) && |connected| < |extras|
    requires CreatedFrom(before, alone, images, adjusted, id)
    requires id in alone && id in after && after == WithEndpoints(alone, id, after[id].endpoints)
    requires ConnectedPrefix(adjusted.endpoints, extras, connected, after[id].endpoints)
    ensures !supportsMulti && CreatedInPart(before, after, images, options, id)
  {
    assert !supportsMulti by { assert |extras| > 0; }
    hide IsSplit, CreatedFrom, ConnectedPrefix;
    StillCreatedFrom(before, alone, after, images, adjusted, id);
  }
}
