/** The Docker values the updater reads: list summaries, inspect responses, endpoints. */
module DockerTypes {
  import opened Wrappers

  type Labels = map<string, string>

  /** One network endpoint's requested settings; a nil endpoint is `None` where it is used. */
  datatype Endpoint = Endpoint(
    ipam: Option<string>,
    links: seq<string>,
    aliases: seq<string>,
    driverOpts: map<string, string>,
    gwPriority: int,
    macAddress: string)

  type Endpoints = map<string, Option<Endpoint>>

  datatype Config = Config(image: string, labels: Labels)

  /** `links` are as configured: a container's name, and after a colon its alias. */
  datatype HostConfig = HostConfig(networkMode: string, links: seq<string>)

  /** One entry of a container listing. */
  datatype Summary = Summary(
    id: string,
    names: seq<string>,
    image: string,
    imageID: string,
    labels: Labels)

  /** An inspect response. */
  datatype Inspect = Inspect(
    name: string,
    image: string,
    config: Option<Config>,
    hostConfig: Option<HostConfig>,
    networks: Endpoints)

  /** The labels of an inspect response, empty when it has no config. */
  function InspectLabels(inspect: Inspect): Labels {
    if inspect.config.Some? then inspect.config.value.labels else map[]
  }

  /** Whether another container's network is shared. */
  predicate IsContainerMode(hostConfig: Option<HostConfig>) {
    hostConfig.Some? && "container:" <= hostConfig.value.networkMode
  }
}
