/** The plans and results the restart phases pass along. */
module RestartTypes {
  import opened Wrappers
  import opened DockerTypes

  /** One container's part in a restart run; `newRef` is blank while there is nothing to do. */
  datatype Plan = Plan(
    cnt: Summary,
    inspect: Option<Inspect>,
    newRef: string,
    matched: string,
    explicit: bool,
    implicit: bool)

  datatype ResourceStatus = Checked | Updated | Restarted | Skipped | Failed | UpToDate | UpdateAvailable

  datatype ResourceType = Image | Container

  /** What a result may report besides its status. */
  datatype ResultError =
    | NoError
    | AlreadyUpToDate | PullerRequired | PullFailure | SameDigest                  // of a plan's image
    | InspectFailure | NoMatchingImage | SelfUpdaterRequired                       // of a dispatch
    | ProjectUpdateFailure | VerificationFailure                                   // of a compose update
    | StopFailure | RemoveFailure | RollbackSuccess | RollbackFailure              // of a recreation
    | SelfUpdateFailure

  datatype ResourceResult = ResourceResult(
    resourceID: string,
    resourceName: string,
    resourceType: ResourceType,
    status: ResourceStatus,
    updateAvailable: bool,
    updateApplied: bool,
    oldImage: string,
    newImage: string,
    error: ResultError)

  function FailedContainerResult(id: string, name: string, error: ResultError): ResourceResult {
    ResourceResult(id, name, Container, Failed, false, false, "", "", error)
  }
}
