/**
 The Docker host as the updater sees it: a daemon that keeps container names unique, the compose
 updater and the self-updater that act on the same machine. Every call may fail, whenever it likes;
 a failed start may have started the container, and a failed stop or remove may have taken effect
 unless `atomicFailures`. The ghost trace records each call that may change a container, in order,
 with the candidate on whose behalf it was made.
 */
module Host {
  import opened Wrappers
  import opened DockerTypes
  import opened Strings

  datatype Container = Container(
    name: string,
    config: Config,
    imageID: string,
    running: bool,
    hostConfig: Option<HostConfig>,
    endpoints: Endpoints)

  datatype CreateOptions = CreateOptions(
    name: string,
    config: Config,
    hostConfig: Option<HostConfig>,
    endpoints: Endpoints)

  datatype Op =
    | Stop(owner: string, id: string)
    | Remove(owner: string, id: string, force: bool)
    | Create(owner: string, name: string, image: string, created: Option<string>)
    | Connect(owner: string, id: string, network: string)
    | Start(owner: string, id: string)
    | UpdateServices(owner: string, projectID: string, services: seq<string>)
    | SelfUpdate(owner: string, id: string, newRef: string, labels: Labels)

  type Containers = map<string, Container>

  // ---------- Pure views of the daemon's state ----------

  predicate UniqueContainerNames(containers: Containers) {
    forall a, b :: a in containers && b in containers && containers[a].name == containers[b].name ==> a == b
  }

  predicate NoBlankNames(containers: Containers) {
    forall id :: id in containers ==> containers[id].name != ""
  }

  predicate NameInUse(containers: Containers, name: string) {
    exists id :: id in containers && containers[id].name == name
  }

  /** An ID the daemon hands out: never blank, never padded. */
  predicate ProperID(id: string) {
    id != "" && TrimSpace(id) == id
  }

  /** Every name stands for a proper image ID, and every image ID for itself. */
  predicate ProperImages(images: map<string, string>) {
    forall ref :: ref in images ==> ProperID(images[ref]) && images[ref] in images && images[images[ref]] == images[ref]
  }

  function SummaryOf(id: string, c: Container): Summary {
    Summary(id, ["/" + c.name], c.config.image, c.imageID, c.config.labels)
  }

  function InspectOf(c: Container): Inspect {
    Inspect("/" + c.name, c.imageID, Some(c.config), c.hostConfig, c.endpoints)
  }

  function CreatedContainer(options: CreateOptions, name: string, imageID: string): Container {
    Container(name, options.config, imageID, false, options.hostConfig, options.endpoints)
  }

  /** One container more than before, made exactly as `options` say, under a name that was free. */
  ghost predicate Created(before: Containers, after: Containers, images: map<string, string>,
                          options: CreateOptions, id: string)
  {
    && id !in before && id in after && options.config.image in images
    && (options.name != "" ==> after[id].name == options.name)
    && !NameInUse(before, after[id].name)
    && after == before[id := CreatedContainer(options, after[id].name, images[options.config.image])]
  }

  /** The containers after one of them was started or stopped. */
  function WithRunning(containers: Containers, id: string, running: bool): Containers
    requires id in containers
  {
    containers[id := containers[id].(running := running)]
  }

  /** The containers after the endpoints of one of them were replaced. */
  function WithEndpoints(containers: Containers, id: string, endpoints: Endpoints): Containers
    requires id in containers
  {
    containers[id := containers[id].(endpoints := endpoints)]
  }

  /** The image IDs a reference stands for: the one it names, or else those of the tags that
      normalize alike. */
  function RefIDs(images: map<string, string>, norm: string -> string, ref: string): set<string> {
    if ref in images then {images[ref]}
    else set tag | tag in images && tag != images[tag] && norm(tag) == norm(ref) :: images[tag]
  }

  class Host {
    /** Image references and image IDs, each with the ID of the image it names. */
    var images: map<string, string>
    var containers: Containers
    var usedIDs: set<string>
    const projects: map<string, string>   // compose project name to project ID
    const multiEndpoint: bool             // whether create accepts several endpoints at once
    const atomicFailures: bool
    const reliableReads: bool
    ghost var trace: seq<Op>
    ghost var pulls: seq<string>   // the references asked to be pulled, in order

    ghost predicate Valid()
      reads this
    {
      && containers.Keys <= usedIDs
      && UniqueContainerNames(containers) && NoBlankNames(containers)
      && (forall id :: id in usedIDs ==> ProperID(id))
      && ProperImages(images)
    }

    constructor (images: map<string, string>, projects: map<string, string>, multiEndpoint: bool,
                 atomicFailures: bool, reliableReads: bool)
      requires ProperImages(images)
      ensures Valid() && this.images == images && containers == map[] && trace == [] && pulls == []
      ensures this.projects == projects && this.multiEndpoint == multiEndpoint
      ensures this.atomicFailures == atomicFailures && this.reliableReads == reliableReads
    {
      this.images := images;
      this.containers := map[];
      this.usedIDs := {};
      this.projects := projects;
      this.multiEndpoint := multiEndpoint;
      this.atomicFailures := atomicFailures;
      this.reliableReads := reliableReads;
      this.trace, this.pulls := [], [];
    }

    // ---------- Reads ----------

    method Inspect(id: string) returns (inspect: Option<Inspect>)
      ensures inspect.Some? ==> id in containers && inspect.value == InspectOf(containers[id])
      ensures reliableReads && id in containers ==> inspect.Some?
    {
      var ok: bool := *;
      if id in containers && (ok || reliableReads) {
        return Some(InspectOf(containers[id]));
      }
      return None;
    }

    /** The image IDs a reference resolves to; a failed lookup resolves to none. */
    method ImageIDs(ref: string, norm: string -> string) returns (ids: set<string>)
      ensures ids == {} || ids == RefIDs(images, norm, ref)
      ensures reliableReads ==> ids == RefIDs(images, norm, ref)
    {
      var ok: bool := *;
      ids := if ok || reliableReads then RefIDs(images, norm, ref) else {};
    }

    /** The running containers in whatever order the daemon lists them. */
    method ListRunning() returns (summaries: Option<seq<Summary>>)
      ensures summaries.Some? ==> ListsRunning(containers, summaries.value)
      ensures reliableReads ==> summaries.Some?
    {
      var ok: bool := *;
      if !ok && !reliableReads { return None; }
      var listed: seq<Summary> := [];
      var rest := containers.Keys;
      while rest != {}
        invariant rest <= containers.Keys
        invariant forall i :: 0 <= i < |listed| ==>
                    listed[i].id in containers && listed[i].id !in rest && containers[listed[i].id].running &&
                    listed[i] == SummaryOf(listed[i].id, containers[listed[i].id])
        invariant forall i, j :: 0 <= i < j < |listed| ==> listed[i].id != listed[j].id
        invariant forall id :: id in containers && id !in rest && containers[id].running ==>
                    exists i :: 0 <= i < |listed| && listed[i].id == id
        decreases rest
      {
        var id :| id in rest;
        ghost var before := listed;
        if containers[id].running {
          listed := listed + [SummaryOf(id, containers[id])];
          assert listed[|before|].id == id;
        }
        assert forall i :: 0 <= i < |before| ==> listed[i] == before[i];
        rest := rest - {id};
      }
      return Some(listed);
    }

    /** Whether a container is running, as an inspect after a failed start reports it. */
    method ContainerRunning(id: string) returns (running: Option<bool>)
      ensures running.Some? ==> id in containers && running.value == containers[id].running
    {
      var ok: bool := *;
      return if ok && id in containers then Some(containers[id].running) else None;
    }

    // ---------- Calls that may change something ----------

    method Stop(id: string, ghost owner: string) returns (ok: bool)
      requires Valid()
      modifies this`containers, this`trace
      ensures Valid() && trace == old(trace) + [Op.Stop(owner, id)]
      ensures ok ==> id in old(containers)
      ensures ok ==> containers == WithRunning(old(containers), id, false)
      ensures !ok ==>
        || containers == old(containers)
        || (id in old(containers) && containers == WithRunning(old(containers), id, false))
    {
      trace := trace + [Op.Stop(owner, id)];
      var took: bool := *;
      ok := *;
      ok := ok && id in containers;
      if id in containers && (ok || took) {
        containers := WithRunning(containers, id, false);
      }
    }

    method Remove(id: string, force: bool, ghost owner: string) returns (ok: bool)
      requires Valid()
      modifies this`containers, this`trace
      ensures Valid() && trace == old(trace) + [Op.Remove(owner, id, force)]
      ensures ok ==> id in old(containers) && (force || !old(containers)[id].running)
      ensures ok ==> containers == old(containers) - {id}
      ensures !ok ==>
        || containers == old(containers)
        || (!atomicFailures && id in old(containers) && containers == old(containers) - {id})
    {
      trace := trace + [Op.Remove(owner, id, force)];
      var took: bool := *;
      ok := *;
      var possible := id in containers && (force || !containers[id].running);
      ok := ok && possible;
      if possible && (ok || (took && !atomicFailures)) {
        containers := containers - {id};
      }
    }

    /** Creates a stopped container. A blank name makes the daemon choose one; a name in use, an
        unknown image, or several endpoints on an old daemon make the call fail. */
    method Create(options: CreateOptions, ghost owner: string) returns (created: Option<string>)
      requires Valid()
      modifies this`containers, this`usedIDs, this`trace
      ensures Valid()
      ensures trace == old(trace) + [Op.Create(owner, options.name, options.config.image, created)]
      ensures created.None? ==> containers == old(containers) && usedIDs == old(usedIDs)
      ensures created.Some? ==>
        && created.value !in old(usedIDs) && ProperID(created.value)
        && usedIDs == old(usedIDs) + {created.value}
        && Created(old(containers), containers, images, options, created.value)
      ensures !multiEndpoint && |options.endpoints| > 1 ==> created.None?
    {
      var ok: bool := *;
      var id: string := *;
      var chosen: string := *;
      var name := if options.name != "" then options.name else chosen;
      if !ok || name == "" || id in usedIDs || !ProperID(id) || options.config.image !in images
         || NameInUse(containers, name) || (!multiEndpoint && |options.endpoints| > 1) {
        trace := trace + [Op.Create(owner, options.name, options.config.image, None)];
        return None;
      }
      trace := trace + [Op.Create(owner, options.name, options.config.image, Some(id))];
      usedIDs := usedIDs + {id};
      containers := containers[id := CreatedContainer(options, name, images[options.config.image])];
      return Some(id);
    }

    method NetworkConnect(id: string, network: string, endpoint: Option<Endpoint>, ghost owner: string)
      returns (ok: bool)
      requires Valid()
      modifies this`containers, this`trace
      ensures Valid() && trace == old(trace) + [Op.Connect(owner, id, network)]
      ensures !ok ==> containers == old(containers)
      ensures ok ==> id in old(containers) &&
                     containers == WithEndpoints(old(containers), id,
                                                 old(containers)[id].endpoints[network := endpoint])
    {
      trace := trace + [Op.Connect(owner, id, network)];
      ok := *;
      ok := ok && id in containers;
      if ok {
        containers := WithEndpoints(containers, id, containers[id].endpoints[network := endpoint]);
      }
    }

    /** Starting may fail and yet start the container. */
    method Start(id: string, ghost owner: string) returns (ok: bool)
      requires Valid()
      modifies this`containers, this`trace
      ensures Valid() && trace == old(trace) + [Op.Start(owner, id)]
      ensures ok ==> id in old(containers)
      ensures ok ==> containers == WithRunning(old(containers), id, true)
      ensures !ok ==>
        || containers == old(containers)
        || (id in old(containers) && containers == WithRunning(old(containers), id, true))
    {
      trace := trace + [Op.Start(owner, id)];
      var took: bool := *;
      ok := *;
      ok := ok && id in containers;
      if id in containers && (ok || took) {
        containers := WithRunning(containers, id, true);
      }
    }

    /** Whatever another tool on the machine may do to the containers: any of them may change, go or come. */
    method OthersAct()
      requires Valid()
      modifies this`containers, this`usedIDs
      ensures Valid() && old(usedIDs) <= usedIDs
    {
      var after: Containers := *;
      var handedOut: set<string> := *;
      if after.Keys <= usedIDs + handedOut && UniqueContainerNames(after) && NoBlankNames(after)
         && (forall id :: id in handedOut ==> ProperID(id)) {
        containers, usedIDs := after, usedIDs + handedOut;
      }
    }

    /** The host application's compose updater: it may change any container, whether or not it
        reports success. */
    method UpdateServices(projectID: string, services: seq<string>, ghost owner: string) returns (ok: bool)
      requires Valid()
      modifies this`containers, this`usedIDs, this`trace
      ensures Valid() && trace == old(trace) + [Op.UpdateServices(owner, projectID, services)]
      ensures old(usedIDs) <= usedIDs
    {
      trace := trace + [Op.UpdateServices(owner, projectID, services)];
      OthersAct();
      ok := *;
    }

    /** The host application's image puller: the reference may come to name another image, whether or
        not the pull is reported to succeed. */
    method PullImage(ref: string) returns (ok: bool)
      requires Valid()
      modifies this`images, this`pulls
      ensures Valid() && (ok ==> ref in images) && pulls == old(pulls) + [ref]
    {
      pulls := pulls + [ref];
      var pulled: map<string, string> := *;
      if ProperImages(pulled) {
        images := pulled;
      }
      ok := *;
      ok := ok && ref in images;
    }

    /** The host application's self-updater, asked to replace one container by one of the new
        reference: it too may change any, whether or not it reports success. */
    method TriggerSelfUpdate(id: string, newRef: string, labels: Labels, ghost owner: string) returns (ok: bool)
      requires Valid()
      modifies this`containers, this`usedIDs, this`trace
      ensures Valid() && trace == old(trace) + [Op.SelfUpdate(owner, id, newRef, labels)]
      ensures old(usedIDs) <= usedIDs
    {
      trace := trace + [Op.SelfUpdate(owner, id, newRef, labels)];
      OthersAct();
      ok := *;
    }
  }

  /** `summaries` lists exactly the running containers, each once. */
  ghost predicate ListsRunning(containers: Containers, summaries: seq<Summary>) {
    && (forall i :: 0 <= i < |summaries| ==>
          && summaries[i].id in containers && containers[summaries[i].id].running
          && summaries[i] == SummaryOf(summaries[i].id, containers[summaries[i].id]))
    && (forall i, j :: 0 <= i < j < |summaries| ==> summaries[i].id != summaries[j].id)
    && (forall id :: id in containers && containers[id].running ==>
          exists i :: 0 <= i < |summaries| && summaries[i].id == id)
  }
}
