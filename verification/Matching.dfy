/** Which updated image, if any, a running container should move to. */
module Matching {
  import opened Wrappers
  import opened DockerTypes
  import opened Strings
  import opened Settings
  import opened Host

  const PROJECT_LABEL: string := "com.docker.compose.project"
  const SERVICE_LABEL: string := "com.docker.compose.service"

  function LabelText(labels: Labels, key: string): string {
    if key in labels then TrimSpace(labels[key]) else ""
  }

  function ProjectLabel(labels: Labels): string { LabelText(labels, PROJECT_LABEL) }

  function ServiceLabel(labels: Labels): string { LabelText(labels, SERVICE_LABEL) }

  predicate IsImageIDLike(ref: string) {
    "sha256:" <= ToLower(TrimSpace(ref))
  }

  /** The updates a run applies: by old image ID, and by old reference in normal form. */
  datatype Updates = Updates(oldIDToNewRef: map<string, string>, updatedNorm: map<string, string>)

  /** The reference an image reference is updated to, with the key that matched; blank for none. */
  function ResolveImageRefMatch(cfg: UpdaterConfig, imageRef: string, updatedNorm: map<string, string>)
    : (string, string)
  {
    var ref := TrimSpace(imageRef);
    if ref == "" || IsImageIDLike(ref) then ("", "") else
    var norm := cfg.normalize(ref);
    if norm != "" && norm in updatedNorm then (updatedNorm[norm], norm) else ("", "")
  }

  function ResolveContainerImageMatch(cfg: UpdaterConfig, c: Summary, inspect: Option<Inspect>, updates: Updates)
    : (string, string)
  {
    if c.imageID != "" && c.imageID in updates.oldIDToNewRef then
      (updates.oldIDToNewRef[c.imageID], c.imageID)
    else if inspect.Some? && inspect.value.image != "" && inspect.value.image in updates.oldIDToNewRef then
      (updates.oldIDToNewRef[inspect.value.image], inspect.value.image)
    else
      var bySummary := ResolveImageRefMatch(cfg, c.image, updates.updatedNorm);
      if bySummary.0 != "" then bySummary else
      var byConfig := if inspect.Some? && inspect.value.config.Some?
                      then ResolveImageRefMatch(cfg, inspect.value.config.value.image, updates.updatedNorm)
                      else ("", "");
      if byConfig.0 != "" then byConfig else
      var byImage := if inspect.Some? then ResolveImageRefMatch(cfg, inspect.value.image, updates.updatedNorm)
                     else ("", "");
      if byImage.0 != "" then byImage else ("", "")
  }

  // ---------- What matches ----------

  /** The text begins like an image ID, in either case and after white space. */
  ghost predicate NamesImageID(text: string) {
    var t := TrimSpace(text);
    |t| >= 7 && forall i :: 0 <= i < 7 ==> t[i] == "sha256:"[i] || IsCapitalOf(t[i], "sha256:"[i])
  }

  lemma ImageIDLikeIs(text: string)
    ensures IsImageIDLike(text) <==> NamesImageID(text)
    ensures IsImageIDLike(TrimSpace(text)) <==> NamesImageID(text)
  {
    TrimTwice(text);
    var t := TrimSpace(text);
    hide TrimSpace, LowerChar;
    if |t| >= 7 {
      forall i | 0 <= i < 7
        ensures ToLower(t)[i] == "sha256:"[i] <==> t[i] == "sha256:"[i] || IsCapitalOf(t[i], "sha256:"[i])
      {
        LowerCharIs(t[i], "sha256:"[i]);
      }
      assert "sha256:" <= ToLower(t) <==> forall i :: 0 <= i < 7 ==> ToLower(t)[i] == "sha256:"[i];
    }
  }

  /** An update is keyed by the text's normal form, and the text names no image ID. */
  ghost predicate HasMatch(cfg: UpdaterConfig, updatedNorm: map<string, string>, text: string) {
    var t := TrimSpace(text);
    t != "" && !NamesImageID(text) &&
    cfg.normalize(t) != "" && cfg.normalize(t) in updatedNorm && updatedNorm[cfg.normalize(t)] != ""
  }

  lemma RefMatchIs(cfg: UpdaterConfig, text: string, updatedNorm: map<string, string>)
    ensures var key := cfg.normalize(TrimSpace(text));
      if HasMatch(cfg, updatedNorm, text) then ResolveImageRefMatch(cfg, text, updatedNorm) == (updatedNorm[key], key)
      else ResolveImageRefMatch(cfg, text, updatedNorm).0 == ""
  {
    ImageIDLikeIs(text);
    hide TrimSpace, IsImageIDLike, NamesImageID;
  }

  /** The update an image ID is keyed by. */
  ghost predicate HasIDMatch(updates: Updates, imageID: string) {
    imageID != "" && imageID in updates.oldIDToNewRef
  }

  /** The image IDs a container may be matched by, the listing's before the inspect response's. */
  function KnownIDs(c: Summary, inspect: Option<Inspect>): seq<string> {
    [c.imageID] + if inspect.Some? then [inspect.value.image] else []
  }

  /** And the references: the listing's, the configured one, and the inspected image taken as one. */
  function KnownRefs(c: Summary, inspect: Option<Inspect>): seq<string> {
    [c.image]
    + (if inspect.Some? && inspect.value.config.Some? then [inspect.value.config.value.image] else [])
    + (if inspect.Some? then [inspect.value.image] else [])
  }

  ghost predicate FirstID(updates: Updates, ids: seq<string>, k: nat) {
    k < |ids| && HasIDMatch(updates, ids[k]) && forall j :: 0 <= j < k ==> !HasIDMatch(updates, ids[j])
  }

  ghost predicate FirstRef(cfg: UpdaterConfig, updates: Updates, refs: seq<string>, k: nat) {
    && k < |refs| && HasMatch(cfg, updates.updatedNorm, refs[k])
    && forall j :: 0 <= j < k ==> !HasMatch(cfg, updates.updatedNorm, refs[j])
  }

  /** A container is matched by the first of its image IDs that is keyed, or else by the first of its references
      that is; by none only if none is. */
  lemma MatchedByFirst(cfg: UpdaterConfig, c: Summary, inspect: Option<Inspect>, updates: Updates, k: nat)
    ensures var ids, refs := KnownIDs(c, inspect), KnownRefs(c, inspect);
      var m := ResolveContainerImageMatch(cfg, c, inspect, updates);
      && (FirstID(updates, ids, k) ==> m == (updates.oldIDToNewRef[ids[k]], ids[k]))
      && ((forall j: nat :: !FirstID(updates, ids, j)) ==>
            && (FirstRef(cfg, updates, refs, k) ==>
                  var key := cfg.normalize(TrimSpace(refs[k])); m == (updates.updatedNorm[key], key))
            && ((forall j: nat :: !FirstRef(cfg, updates, refs, j)) ==> m.0 == ""))
  {
    RefMatchIs(cfg, c.image, updates.updatedNorm);
    if inspect.Some? {
      RefMatchIs(cfg, inspect.value.image, updates.updatedNorm);
      if inspect.value.config.Some? {
        RefMatchIs(cfg, inspect.value.config.value.image, updates.updatedNorm);
      }
    }
    hide TrimSpace, HasMatch, ResolveImageRefMatch;
    var ids, refs := KnownIDs(c, inspect), KnownRefs(c, inspect);
    assert (FirstID(updates, ids, 0) <==> HasIDMatch(updates, ids[0])) && |ids| <= 2 && 1 <= |refs| <= 3;
    assert |ids| == 2 ==> (FirstID(updates, ids, 1) <==> !HasIDMatch(updates, ids[0]) && HasIDMatch(updates, ids[1]));
    FirstRefs(cfg, updates, refs);
  }

  lemma FirstRefs(cfg: UpdaterConfig, updates: Updates, refs: seq<string>)
    requires 1 <= |refs| <= 3
    ensures FirstRef(cfg, updates, refs, 0) <==> HasMatch(cfg, updates.updatedNorm, refs[0])
    ensures FirstRef(cfg, updates, refs, 1) <==>
            |refs| > 1 && !HasMatch(cfg, updates.updatedNorm, refs[0]) && HasMatch(cfg, updates.updatedNorm, refs[1])
    ensures FirstRef(cfg, updates, refs, 2) <==>
            && |refs| > 2 && !HasMatch(cfg, updates.updatedNorm, refs[0])
            && !HasMatch(cfg, updates.updatedNorm, refs[1]) && HasMatch(cfg, updates.updatedNorm, refs[2])
  {
    hide HasMatch;
  }

  /** The image a container is on, as the listing tells, or else its inspect response. */
  lemma CurrentImageIs(c: Summary, inspect: Option<Inspect>)
    ensures !Blank(c.imageID) ==> CurrentContainerImageID(c, inspect) == TrimSpace(c.imageID)
    ensures Blank(c.imageID) ==>
              CurrentContainerImageID(c, inspect) == if inspect.Some? then TrimSpace(inspect.value.image) else ""
  {
    BlankIs(c.imageID);
    hide TrimSpace;
  }

  predicate ShouldInspectUnmatched(cfg: UpdaterConfig, c: Summary) {
    var ref := TrimSpace(c.image);
    if ref == "" || IsImageIDLike(ref) then true
    else cfg.hasDigestSuffix(ref) && (ProjectLabel(c.labels) != "" || ServiceLabel(c.labels) != "")
  }

  function CurrentContainerImageID(c: Summary, inspect: Option<Inspect>): string {
    var id := TrimSpace(c.imageID);
    if id != "" then id else if inspect.Some? then TrimSpace(inspect.value.image) else ""
  }

  // ---------- Compose verification ----------

  /** The daemon's label filter: a running container of that project's service. */
  predicate RunsService(c: Container, projectName: string, serviceName: string) {
    && c.running
    && PROJECT_LABEL in c.config.labels && c.config.labels[PROJECT_LABEL] == projectName
    && SERVICE_LABEL in c.config.labels && c.config.labels[SERVICE_LABEL] == serviceName
  }

  /** Some container of the service runs, and none of them runs the old image. */
  ghost predicate ServiceMovedOn(containers: Containers, projectName: string, serviceName: string, oldImageID: string) {
    && (exists id :: id in containers && RunsService(containers[id], projectName, serviceName))
    && (forall id :: id in containers && RunsService(containers[id], projectName, serviceName) ==>
          TrimSpace(containers[id].imageID) != oldImageID)
  }

  ghost predicate ServiceVerified(containers: Containers, projectName: string, serviceName: string,
                                  oldImageID: string) {
    TrimSpace(projectName) != "" && TrimSpace(serviceName) != "" && TrimSpace(oldImageID) != "" ==>
      ServiceMovedOn(containers, TrimSpace(projectName), TrimSpace(serviceName), TrimSpace(oldImageID))
  }

  /** Checks that a service moved on; a check with a blank name or old image passes at once. */
  method VerifyComposeServiceUpdatedImage(h: Host, projectName: string, serviceName: string, oldImageID: string)
    returns (verified: bool)
    ensures verified ==> ServiceVerified(h.containers, projectName, serviceName, oldImageID)
    ensures h.reliableReads && ServiceVerified(h.containers, projectName, serviceName, oldImageID) ==> verified
  {
    hide *;
    var project, service, oldID := TrimSpace(projectName), TrimSpace(serviceName), TrimSpace(oldImageID);
    VerifiedIs(h.containers, projectName, serviceName, oldImageID);
    if project == "" || service == "" || oldID == "" {
      return true;
    }
    var listed := h.ListRunning();
    if listed.None? {
      return false;
    }
    var found := false;
    var items := listed.value;
    NothingChecked(h.containers, items, project, service, oldID);
    for i := 0 to |items|
      invariant Checked(h.containers, items, project, service, oldID, i, found)
    {
      ListedIs(h.containers, items, i);
      OneMoreChecked(h.containers, items, project, service, oldID, i, found);
      var c := h.containers[items[i].id];
      if RunsService(c, project, service) {
        found := true;
        var current := TrimSpace(items[i].imageID);
        if current == "" {
          var inspect := h.Inspect(items[i].id);
          if inspect.None? {
            return false;
          }
          current := TrimSpace(inspect.value.image);
        }
        if current == oldID {
          return false;
        }
      }
    }
    AllChecked(h.containers, items, project, service, oldID, found);
    return found;
  }

  lemma VerifiedIs(containers: Containers, projectName: string, serviceName: string, oldImageID: string)
    ensures var project, service, oldID := TrimSpace(projectName), TrimSpace(serviceName), TrimSpace(oldImageID);
      ServiceVerified(containers, projectName, serviceName, oldImageID) <==>
        project == "" || service == "" || oldID == "" || ServiceMovedOn(containers, project, service, oldID)
  {
    hide TrimSpace, ServiceMovedOn;
  }

  /** Of the first `i` listed containers none of the service runs the old image, and `found` tells whether
      one of them is of the service. */
  ghost predicate Checked(containers: Containers, items: seq<Summary>, project: string, service: string, oldID: string,
                          i: nat, found: bool)
  {
    && ListsRunning(containers, items) && i <= |items|
    && (found <==> exists j :: 0 <= j < i && RunsService(containers[items[j].id], project, service))
    && forall j :: 0 <= j < i && RunsService(containers[items[j].id], project, service) ==>
         TrimSpace(containers[items[j].id].imageID) != oldID
  }

  lemma NothingChecked(containers: Containers, items: seq<Summary>, project: string, service: string, oldID: string)
    requires ListsRunning(containers, items)
    ensures Checked(containers, items, project, service, oldID, 0, false)
  {
  }

  lemma ListedIs(containers: Containers, items: seq<Summary>, i: nat)
    requires ListsRunning(containers, items) && i < |items|
    ensures items[i].id in containers
    ensures items[i].imageID == containers[items[i].id].imageID == InspectOf(containers[items[i].id]).image
  {
  }

  lemma OneMoreChecked(containers: Containers, items: seq<Summary>, project: string, service: string, oldID: string,
                       i: nat, found: bool)
    requires Checked(containers, items, project, service, oldID, i, found) && i < |items| && items[i].id in containers
    ensures var c := containers[items[i].id];
      if !RunsService(c, project, service) then Checked(containers, items, project, service, oldID, i + 1, found)
      else if TrimSpace(c.imageID) != oldID then Checked(containers, items, project, service, oldID, i + 1, true)
      else !ServiceMovedOn(containers, project, service, oldID)
  {
    hide RunsService, TrimSpace, ListsRunning;
  }

  lemma AllChecked(containers: Containers, items: seq<Summary>, project: string, service: string, oldID: string,
                   found: bool)
    requires Checked(containers, items, project, service, oldID, |items|, found)
    ensures found <==> ServiceMovedOn(containers, project, service, oldID)
  {
    hide TrimSpace;
    forall id | id in containers && RunsService(containers[id], project, service)
      ensures found && TrimSpace(containers[id].imageID) != oldID
    {
      assert containers[id].running;
      var j :| 0 <= j < |items| && items[j].id == id;
      assert RunsService(containers[items[j].id], project, service);
    }
    if found {
      var j :| 0 <= j < |items| && RunsService(containers[items[j].id], project, service);
      assert items[j].id in containers;
    }
  }
}
