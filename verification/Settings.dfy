/** What a host application configures: label predicates, ports, and how references normalize. */
module Settings {
  import opened DockerTypes

  /** Each predicate answers from a container's labels alone. */
  datatype LabelPolicy = LabelPolicy(
    isUpdateDisabled: Labels -> bool,
    isSelfUpdateTarget: Labels -> bool,
    isAgent: Labels -> bool,
    isServer: Labels -> bool,
    isSwarmTask: Labels -> bool)

  /** `normalize` gives the canonical form of an image reference, blank when it has none;
      `hasDigestSuffix` tells a reference that names a digest; `refreshLabels` is the label set a
      container is recreated with from its old labels and the new reference. */
  datatype UpdaterConfig = UpdaterConfig(
    policy: LabelPolicy,
    selfContainerID: string,
    hasProjectUpdater: bool,
    hasSelfUpdater: bool,
    normalize: string -> string,
    hasDigestSuffix: string -> bool,
    refreshLabels: (Labels, string) -> Labels)
}
