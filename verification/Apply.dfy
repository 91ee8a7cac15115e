/** Applying pending updates: pull each, restart what ran the old images, clear what is done with. */
module Apply {
  import opened Wrappers
  import opened Strings
  import opened Settings
  import opened Deps
  import opened Host
  import opened Matching
  import opened PendingStore
  import opened RestartTypes
  import opened RestartScanning
  import opened Results
  import opened RestartRunning
  import opened RunTheorems
  import opened RestartService

  datatype Options = Options(dryRun: bool, force: bool)

  datatype UpdatePlan = UpdatePlan(
    record: ImageUpdateRecord,
    oldRef: string,
    newRef: string,
    oldIDs: set<string>,
    pulled: bool,
    restartFailed: bool)

  // ---------- Plans ----------

  /** A record is acted on if it has an update and something uses the image it is about. */
  predicate IsRelevant(cfg: UpdaterConfig, used: set<string>, record: ImageUpdateRecord) {
    var norm := cfg.normalize(ImageRef(record));
    record.hasUpdate && ImageRef(record) != "" && norm != "" && norm in used
  }

  ghost function Relevant(cfg: UpdaterConfig, used: set<string>,
                          records: seq<ImageUpdateRecord>): seq<ImageUpdateRecord> {
    if records == [] then []
    else
      var last := records[|records| - 1];
      Relevant(cfg, used, records[..|records| - 1]) + if IsRelevant(cfg, used, last) then [last] else []
  }

  /** A record's own ID counts as an old image if it looks like one. */
  function WithRecordID(oldIDs: set<string>, recordID: string): set<string> {
    var id := TrimSpace(recordID);
    if IsImageIDLike(id) then oldIDs + {id} else oldIDs
  }

  ghost predicate PlansRecord(plan: UpdatePlan, record: ImageUpdateRecord) {
    plan.record == record && IsCurrentRef(record, plan.oldRef) && IsNextRef(record, plan.newRef)
  }

  lemma PlanNames(plan: UpdatePlan, record: ImageUpdateRecord)
    requires ImageRef(record) != ""
    ensures PlansRecord(plan, record) <==>
            plan.record == record && plan.oldRef == ImageRef(record) && plan.newRef == NewImageRef(record)
  {
    RefsExactly(record, plan.oldRef);
    RefsExactly(record, plan.newRef);
    hide IsCurrentRef, IsNextRef;
  }

  ghost predicate PlansRecords(plans: seq<UpdatePlan>, records: seq<ImageUpdateRecord>) {
    |plans| == |records| && forall i :: 0 <= i < |plans| ==> PlansRecord(plans[i], records[i])
  }

  ghost predicate Untouched(plans: seq<UpdatePlan>) {
    forall i :: 0 <= i < |plans| ==> !plans[i].pulled && !plans[i].restartFailed
  }

  /** The old images of a plan: those its old reference stands for, if they could be looked up, and the
      record's own ID if it looks like one. */
  ghost predicate KnowsOldIDs(cfg: UpdaterConfig, images: map<string, string>, reliable: bool, plan: UpdatePlan) {
    var own := if IsImageIDLike(TrimSpace(plan.record.id)) then {TrimSpace(plan.record.id)} else {};
    var found := RefIDs(images, cfg.normalize, plan.oldRef);
    own <= plan.oldIDs <= own + found && (reliable ==> plan.oldIDs == own + found)
  }

  method BuildUpdatePlans(h: Host, cfg: UpdaterConfig, records: seq<ImageUpdateRecord>, used: set<string>)
    returns (plans: seq<UpdatePlan>)
    ensures PlansRecords(plans, Relevant(cfg, used, records)) && Untouched(plans)
    ensures forall i :: 0 <= i < |plans| ==> KnowsOldIDs(cfg, h.images, h.reliableReads, plans[i])
  {
    hide RefIDs, IsImageIDLike, TrimSpace, IsCurrentRef, IsNextRef, ImageRef, NewImageRef;
    plans := [];
    for i := 0 to |records|
      invariant PlansRecords(plans, Relevant(cfg, used, records[..i])) && Untouched(plans)
      invariant forall k :: 0 <= k < |plans| ==> KnowsOldIDs(cfg, h.images, h.reliableReads, plans[k])
    {
      assert records[..i + 1][..i] == records[..i];
      var record := records[i];
      if !record.hasUpdate { continue; }
      var oldRef := ImageRef(record);
      if oldRef == "" { continue; }
      var oldNorm := cfg.normalize(oldRef);
      if oldNorm == "" || oldNorm !in used { continue; }
      var oldIDs := h.ImageIDs(oldRef, cfg.normalize);
      var plan := UpdatePlan(record, oldRef, NewImageRef(record), WithRecordID(oldIDs, record.id), false, false);
      PlanNames(plan, record);
      plans := plans + [plan];
    }
    assert records[..|records|] == records;
  }

  // ---------- One plan ----------

  /** What a registry check of one image reports. */
  datatype DigestCheck = DigestCheck(ok: bool, needsUpdate: bool, viaAPI: bool)

  /** A digest the record already knows settles the question; otherwise the registry must. */
  predicate PlanImageUpToDate(record: ImageUpdateRecord, known: DigestCheck, current: DigestCheck) {
    if record.updateType.DigestUpdate? && record.latestDigest.Some? && TrimSpace(record.latestDigest.value) != ""
    then known.ok && !known.needsUpdate
    else current.viaAPI && current.ok && !current.needsUpdate
  }

  ghost predicate Overlap(a: set<string>, b: set<string>) {
    exists x, y :: x in a && y in b && TrimSpace(x) != "" && TrimSpace(y) == TrimSpace(x)
  }

  method ImageIDsOverlap(oldIDs: set<string>, newIDs: set<string>) returns (overlap: bool)
    ensures overlap <==> Overlap(oldIDs, newIDs)
  {
    var seen: set<string> := {};
    var rest := oldIDs;
    while rest != {}
      invariant rest <= oldIDs
      invariant forall id :: id in seen <==> id != "" && exists x :: x in oldIDs - rest && TrimSpace(x) == id
      decreases rest
    {
      var oldID :| oldID in rest;
      ghost var before := seen;
      var id := TrimSpace(oldID);
      if id != "" {
        seen := seen + {id};
      }
      assert oldIDs - (rest - {oldID}) == (oldIDs - rest) + {oldID};
      assert forall x :: x in oldIDs - rest ==> x in oldIDs - (rest - {oldID});
      rest := rest - {oldID};
    }
    if |seen| == 0 {
      assert forall x :: x in oldIDs ==> TrimSpace(x) == "" || TrimSpace(x) in seen;
      return false;
    }
    rest := newIDs;
    while rest != {}
      invariant rest <= newIDs
      invariant forall y :: y in newIDs - rest ==> TrimSpace(y) !in seen
      decreases rest
    {
      var newID :| newID in rest;
      if TrimSpace(newID) in seen {
        return true;
      }
      rest := rest - {newID};
    }
    assert newIDs - rest == newIDs;
    return false;
  }

  /** An item names its plan, and its status says how the plan went. */
  ghost predicate IsPlanItem(options: Options, plan: UpdatePlan, item: ResourceResult) {
    && item.resourceID == item.resourceName == item.oldImage == plan.oldRef && item.newImage == plan.newRef
    && item.resourceType == Image && item.status in {Skipped, Failed, UpToDate, Updated}
    && (plan.pulled <==> item.status in {UpToDate, Updated})
    && (options.dryRun ==> item.status == Skipped)
    && (options.force && !options.dryRun ==> item.status in {Failed, Updated})
    && (item.status == Updated <==> item.updateApplied)
    && (plan.pulled ==> AsksToPull(item))
  }

  /** The puller was asked for the item's new reference, whatever came of it. */
  predicate AsksToPull(item: ResourceResult) {
    item.status != Skipped && item.error != PullerRequired
  }

  /** The registry says that the image is what the record leads to: of a digest the record knows, that it is
      matched; else, from the registry itself, that nothing newer is there. */
  ghost predicate RegistrySaysCurrent(record: ImageUpdateRecord, known: DigestCheck, current: DigestCheck) {
    var knowsDigest := record.updateType == DigestUpdate && record.latestDigest.Some? &&
                       TrimSpace(record.latestDigest.value) != "";
    && (knowsDigest ==> known.ok && !known.needsUpdate)
    && (!knowsDigest ==> current.viaAPI && current.ok && !current.needsUpdate)
  }

  /** Carries out one plan, given what the registry answers when asked. */
  method ExecuteUpdatePlan(h: Host, cfg: UpdaterConfig, plan: UpdatePlan, options: Options, hasPuller: bool,
                           known: DigestCheck, current: DigestCheck)
    returns (item: ResourceResult, after: UpdatePlan)
    requires h.Valid() && !plan.pulled
    modifies h`images, h`pulls
    ensures h.Valid() && after == plan.(pulled := after.pulled) && IsPlanItem(options, after, item)
    ensures item.status == Skipped <==>
            options.dryRun || (!options.force && RegistrySaysCurrent(plan.record, known, current))
    ensures AsksToPull(item) <==> item.status != Skipped && hasPuller
    ensures h.pulls == old(h.pulls) + if AsksToPull(item) then [plan.newRef] else []
    ensures options.dryRun || item.status == Skipped || !hasPuller ==> !after.pulled && h.images == old(h.images)
    ensures after.pulled ==> hasPuller && plan.newRef in h.images
    ensures item.status == UpToDate ==> Overlap(plan.oldIDs, RefIDs(h.images, cfg.normalize, plan.newRef))
    ensures item.status == Updated && h.reliableReads && !options.force ==>
      !Overlap(plan.oldIDs, RefIDs(h.images, cfg.normalize, plan.newRef))
  {
    hide RefIDs, Overlap;
    after := plan;
    item := ResourceResult(plan.oldRef, plan.oldRef, Image, Checked, false, false, plan.oldRef, plan.newRef, NoError);
    if options.dryRun {
      return item.(status := Skipped), after;
    }
    if !options.force && PlanImageUpToDate(plan.record, known, current) {
      return item.(status := Skipped, error := AlreadyUpToDate), after;
    }
    if !hasPuller {
      return item.(status := Failed, error := PullerRequired), after;
    }
    var ok := h.PullImage(plan.newRef);
    if !ok {
      return item.(status := Failed, error := PullFailure), after;
    }
    after := plan.(pulled := true);
    if !options.force {
      var targetIDs := h.ImageIDs(plan.newRef, cfg.normalize);
      var overlap := ImageIDsOverlap(plan.oldIDs, targetIDs);
      NoOverlapWithNone(plan.oldIDs);
      if overlap {
        return item.(status := UpToDate, error := SameDigest), after;
      }
    }
    item := item.(status := Updated, updateApplied := true, updateAvailable := true);
  }

  lemma NoOverlapWithNone(a: set<string>)
    ensures !Overlap(a, {})
  {
  }

  // ---------- What to restart ----------

  ghost predicate MovesID(plans: seq<UpdatePlan>, items: seq<ResourceResult>, id: string, ref: string)
    requires |plans| == |items|
  {
    exists i :: 0 <= i < |plans| && items[i].status == Updated && id in plans[i].oldIDs && plans[i].newRef == ref &&
      forall j :: i < j < |plans| && items[j].status == Updated ==> id !in plans[j].oldIDs
  }

  ghost predicate MovesRef(plans: seq<UpdatePlan>, items: seq<ResourceResult>, oldRef: string, ref: string)
    requires |plans| == |items|
  {
    exists i :: 0 <= i < |plans| && items[i].status == Updated && plans[i].oldRef == oldRef && plans[i].newRef == ref &&
      forall j :: i < j < |plans| && items[j].status == Updated ==> plans[j].oldRef != oldRef
  }

  ghost predicate RequestsIDs(plans: seq<UpdatePlan>, items: seq<ResourceResult>, oldIDToNewRef: map<string, string>)
    requires |plans| == |items|
  {
    && (forall i :: 0 <= i < |plans| && items[i].status == Updated ==> plans[i].oldIDs <= oldIDToNewRef.Keys)
    && (forall id :: id in oldIDToNewRef ==> MovesID(plans, items, id, oldIDToNewRef[id]))
  }

  ghost predicate RequestsRefs(plans: seq<UpdatePlan>, items: seq<ResourceResult>, oldRefToNewRef: map<string, string>)
    requires |plans| == |items|
  {
    && (forall i :: 0 <= i < |plans| && items[i].status == Updated ==> plans[i].oldRef in oldRefToNewRef)
    && (forall ref :: ref in oldRefToNewRef ==> MovesRef(plans, items, ref, oldRefToNewRef[ref]))
  }

  /** The updates asked of the restart are exactly those of the updated plans. */
  ghost predicate Requests(plans: seq<UpdatePlan>, items: seq<ResourceResult>, oldIDToNewRef: map<string, string>,
                           oldRefToNewRef: map<string, string>)
    requires |plans| == |items|
  {
    RequestsIDs(plans, items, oldIDToNewRef) && RequestsRefs(plans, items, oldRefToNewRef)
  }

  lemma NothingRequested()
    ensures Requests([], [], map[], map[])
  {
  }

  lemma OneMoreID(plans: seq<UpdatePlan>, items: seq<ResourceResult>, oldIDToNewRef: map<string, string>,
                  plan: UpdatePlan, item: ResourceResult)
    requires |plans| == |items| && RequestsIDs(plans, items, oldIDToNewRef)
    ensures item.status != Updated ==> RequestsIDs(plans + [plan], items + [item], oldIDToNewRef)
    ensures item.status == Updated ==>
      RequestsIDs(plans + [plan], items + [item], oldIDToNewRef + (map id | id in plan.oldIDs :: plan.newRef))
  {
    var ps, rs, n := plans + [plan], items + [item], |plans|;
    var more := if item.status == Updated then oldIDToNewRef + (map id | id in plan.oldIDs :: plan.newRef)
                else oldIDToNewRef;
    forall id | id in more ensures MovesID(ps, rs, id, more[id]) {
      if item.status == Updated && id in plan.oldIDs {
        assert ps[n] == plan && rs[n] == item;
      } else {
        var i :| 0 <= i < n && items[i].status == Updated && id in plans[i].oldIDs && plans[i].newRef == more[id] &&
          forall j :: i < j < n && items[j].status == Updated ==> id !in plans[j].oldIDs;
        assert ps[i] == plans[i] && rs[i] == items[i];
      }
    }
    forall i | 0 <= i <= n && rs[i].status == Updated ensures ps[i].oldIDs <= more.Keys {
      if i < n { assert plans[i].oldIDs <= oldIDToNewRef.Keys; }
    }
  }

  lemma OneMoreRef(plans: seq<UpdatePlan>, items: seq<ResourceResult>, oldRefToNewRef: map<string, string>,
                   plan: UpdatePlan, item: ResourceResult)
    requires |plans| == |items| && RequestsRefs(plans, items, oldRefToNewRef)
    ensures RequestsRefs(plans + [plan], items + [item],
                         if item.status == Updated then oldRefToNewRef[plan.oldRef := plan.newRef] else oldRefToNewRef)
  {
    var ps, rs, n := plans + [plan], items + [item], |plans|;
    var more := if item.status == Updated then oldRefToNewRef[plan.oldRef := plan.newRef] else oldRefToNewRef;
    forall ref | ref in more ensures MovesRef(ps, rs, ref, more[ref]) {
      if item.status == Updated && ref == plan.oldRef {
        assert ps[n] == plan && rs[n] == item;
      } else {
        var i :| 0 <= i < n && items[i].status == Updated && plans[i].oldRef == ref && plans[i].newRef == more[ref] &&
          forall j :: i < j < n && items[j].status == Updated ==> plans[j].oldRef != ref;
        assert ps[i] == plans[i] && rs[i] == items[i];
      }
    }
  }

  lemma OneMoreRequested(plans: seq<UpdatePlan>, items: seq<ResourceResult>, oldIDToNewRef: map<string, string>,
                         oldRefToNewRef: map<string, string>, plan: UpdatePlan, item: ResourceResult)
    requires |plans| == |items| && Requests(plans, items, oldIDToNewRef, oldRefToNewRef)
    ensures item.status != Updated ==> Requests(plans + [plan], items + [item], oldIDToNewRef, oldRefToNewRef)
    ensures item.status == Updated ==>
      Requests(plans + [plan], items + [item], oldIDToNewRef + (map id | id in plan.oldIDs :: plan.newRef),
               oldRefToNewRef[plan.oldRef := plan.newRef])
  {
    OneMoreID(plans, items, oldIDToNewRef, plan, item);
    OneMoreRef(plans, items, oldRefToNewRef, plan, item);
    hide RequestsIDs, RequestsRefs;
  }

  /** Marking plans whose restart failed changes nothing about what was asked. */
  lemma MarkedRequests(plans: seq<UpdatePlan>, marked: seq<UpdatePlan>, items: seq<ResourceResult>,
                       oldIDToNewRef: map<string, string>, oldRefToNewRef: map<string, string>)
    requires |plans| == |items| == |marked| && Requests(plans, items, oldIDToNewRef, oldRefToNewRef)
    requires forall i :: 0 <= i < |plans| ==> marked[i] == plans[i].(restartFailed := marked[i].restartFailed)
    ensures Requests(marked, items, oldIDToNewRef, oldRefToNewRef)
  {
    hide MovesID, MovesRef;
    forall id | id in oldIDToNewRef ensures MovesID(marked, items, id, oldIDToNewRef[id]) {
      MarkedMoves(plans, marked, items, id, oldIDToNewRef[id]);
    }
    forall ref | ref in oldRefToNewRef ensures MovesRef(marked, items, ref, oldRefToNewRef[ref]) {
      MarkedMoves(plans, marked, items, ref, oldRefToNewRef[ref]);
    }
  }

  lemma MarkedMoves(plans: seq<UpdatePlan>, marked: seq<UpdatePlan>, items: seq<ResourceResult>, key: string,
                    ref: string)
    requires |plans| == |items| == |marked|
    requires forall i :: 0 <= i < |plans| ==> marked[i] == plans[i].(restartFailed := marked[i].restartFailed)
    ensures MovesID(plans, items, key, ref) ==> MovesID(marked, items, key, ref)
    ensures MovesRef(plans, items, key, ref) ==> MovesRef(marked, items, key, ref)
  {
    assert forall i :: 0 <= i < |plans| ==>
      marked[i].oldIDs == plans[i].oldIDs && marked[i].oldRef == plans[i].oldRef && marked[i].newRef == plans[i].newRef;
  }

  /** Points every old image ID of a plan at its new reference. */
  method PointOldIDs(oldIDToNewRef: map<string, string>, plan: UpdatePlan) returns (pointed: map<string, string>)
    ensures pointed == oldIDToNewRef + (map id | id in plan.oldIDs :: plan.newRef)
  {
    pointed := oldIDToNewRef;
    var rest := plan.oldIDs;
    while rest != {}
      invariant rest <= plan.oldIDs && pointed == oldIDToNewRef + (map id | id in plan.oldIDs - rest :: plan.newRef)
      decreases rest
    {
      var id :| id in rest;
      pointed := pointed[id := plan.newRef];
      rest := rest - {id};
    }
    assert plan.oldIDs - rest == plan.oldIDs;
  }

  /** The map under normalized keys; of keys that normalize alike, any one's value may be kept. */
  method NormalizeMapKeys(normalize: string -> string, refs: map<string, string>) returns (out: map<string, string>)
    ensures forall ref :: ref in refs && normalize(ref) != "" ==> normalize(ref) in out
    ensures forall key :: key in out ==>
              key != "" && exists ref :: ref in refs && normalize(ref) == key && out[key] == refs[ref]
  {
    out := map[];
    var rest := refs.Keys;
    while rest != {}
      invariant rest <= refs.Keys
      invariant forall ref :: ref in refs && ref !in rest && normalize(ref) != "" ==> normalize(ref) in out
      invariant forall key :: key in out ==>
                  key != "" && exists ref :: ref in refs && normalize(ref) == key && out[key] == refs[ref]
      decreases rest
    {
      var ref :| ref in rest;
      if normalize(ref) != "" {
        out := out[normalize(ref) := refs[ref]];
      }
      rest := rest - {ref};
    }
  }

  // ---------- After the restart ----------

  /** The new references, in normal form, that some container failed to move to. */
  ghost function FailedRefs(cfg: UpdaterConfig, results: seq<ResourceResult>): set<string> {
    set i | 0 <= i < |results| && results[i].status == Failed && cfg.normalize(results[i].newImage) != "" ::
      cfg.normalize(results[i].newImage)
  }

  method RestartFailedImageRefs(cfg: UpdaterConfig, results: seq<ResourceResult>) returns (failedRefs: set<string>)
    ensures failedRefs == FailedRefs(cfg, results)
  {
    failedRefs := {};
    for i := 0 to |results|
      invariant failedRefs == FailedRefs(cfg, results[..i])
    {
      FailedSnoc(cfg, results, i);
      if results[i].status != Failed { continue; }
      var newRef := cfg.normalize(results[i].newImage);
      if newRef != "" {
        failedRefs := failedRefs + {newRef};
      }
    }
    assert results[..|results|] == results;
  }

  lemma FailedSnoc(cfg: UpdaterConfig, results: seq<ResourceResult>, i: nat)
    requires i < |results|
    ensures FailedRefs(cfg, results[..i + 1]) == FailedRefs(cfg, results[..i]) +
            if results[i].status == Failed && cfg.normalize(results[i].newImage) != ""
              then {cfg.normalize(results[i].newImage)} else {}
  {
    var more, fewer := results[..i + 1], results[..i];
    assert forall k :: 0 <= k < i ==> more[k] == fewer[k];
    assert more[i] == results[i];
  }

  /** Whether a plan's record must be kept: its image was pulled but a container failed to move to it. */
  predicate HeldBack(cfg: UpdaterConfig, plan: UpdatePlan, failedRefs: set<string>) {
    plan.pulled && cfg.normalize(plan.newRef) in failedRefs
  }

  method MarkRestartFailedPlans(cfg: UpdaterConfig, plans: seq<UpdatePlan>, results: seq<ResourceResult>)
    returns (marked: seq<UpdatePlan>)
    requires forall i :: 0 <= i < |plans| ==> !plans[i].restartFailed
    ensures |marked| == |plans|
    ensures forall i :: 0 <= i < |plans| ==>
              marked[i] == plans[i].(restartFailed := HeldBack(cfg, plans[i], FailedRefs(cfg, results)))
  {
    marked := plans;
    var failedRefs := RestartFailedImageRefs(cfg, results);
    if |failedRefs| == 0 {
      return;
    }
    for i := 0 to |plans|
      invariant |marked| == |plans| && forall k :: i <= k < |plans| ==> marked[k] == plans[k]
      invariant forall k :: 0 <= k < i ==> marked[k] == plans[k].(restartFailed := HeldBack(cfg, plans[k], failedRefs))
    {
      if !marked[i].pulled { continue; }
      if cfg.normalize(marked[i].newRef) in failedRefs {
        marked := marked[i := marked[i].(restartFailed := true)];
      }
    }
  }

  /** The keys of the records that are done with. */
  ghost function DoneKeys(plans: seq<UpdatePlan>): set<string> {
    set i | 0 <= i < |plans| && plans[i].pulled && !plans[i].restartFailed :: StoreKey(plans[i].record)
  }

  method ClearAppliedPlanRecords(store: MemoryPendingStore, plans: seq<UpdatePlan>, cancellable: bool)
    returns (ghost gone: set<string>)
    requires store.Valid()
    modifies store`records
    ensures store.Valid() && store.records == old(store.records) - gone
    ensures gone <= DoneKeys(plans) && (!cancellable ==> gone == DoneKeys(plans))
  {
    gone := {};
    for i := 0 to |plans|
      invariant store.Valid() && store.records == old(store.records) - gone
      invariant gone <= DoneKeys(plans) && (!cancellable ==> gone == DoneKeys(plans[..i]))
    {
      DoneSnoc(plans, i);
      if !plans[i].pulled || plans[i].restartFailed { continue; }
      var cancelled: bool := *;
      cancelled := cancelled && cancellable;
      var ok := store.ClearImageUpdateRecord(plans[i].record, cancelled);
      if ok {
        gone := gone + {StoreKey(plans[i].record)};
      }
    }
    assert plans[..|plans|] == plans;
  }

  lemma DoneSnoc(plans: seq<UpdatePlan>, i: nat)
    requires i < |plans|
    ensures DoneKeys(plans[..i + 1]) == DoneKeys(plans[..i]) +
            if plans[i].pulled && !plans[i].restartFailed then {StoreKey(plans[i].record)} else {}
    ensures plans[i].pulled && !plans[i].restartFailed ==> StoreKey(plans[i].record) in DoneKeys(plans)
  {
    var more, fewer := plans[..i + 1], plans[..i];
    assert forall k :: 0 <= k < i ==> more[k] == fewer[k];
    assert more[i] == plans[i];
  }

  // ---------- The whole run ----------

  /** What the host application provides and wants left alone. */
  datatype Environment = Environment(
    usedImages: Option<set<string>>,   // none if they cannot be determined
    hasPuller: bool,
    excluded: set<string>,
    proxyName: string,
    recentAPI: bool,
    cancellable: bool)                 // whether the caller's context may be cancelled along the way

  /** What a run went through: its plans as they ended, what it asked to restart, and what came of it. */
  datatype Account = Account(
    plans: seq<UpdatePlan>,
    planItems: seq<ResourceResult>,
    oldIDToNewRef: map<string, string>,
    oldRefToNewRef: map<string, string>,
    request: Request,
    run: Option<RunRecord>,
    containerItems: seq<ResourceResult>)

  /** `after` is `before` as executed. */
  ghost predicate Executes(options: Options, before: seq<UpdatePlan>, after: seq<UpdatePlan>,
                           items: seq<ResourceResult>) {
    |after| == |before| == |items| &&
    forall i :: 0 <= i < |after| ==>
      after[i] == before[i].(pulled := after[i].pulled) && IsPlanItem(options, after[i], items[i])
  }

  /** The references asked of the puller, plan by plan. */
  ghost function PullsOf(plans: seq<UpdatePlan>, items: seq<ResourceResult>): seq<string>
    requires |plans| == |items|
  {
    if plans == [] then []
    else
      var n := |plans| - 1;
      PullsOf(plans[..n], items[..n]) + if AsksToPull(items[n]) then [plans[n].newRef] else []
  }

  lemma PullsSnoc(plans: seq<UpdatePlan>, items: seq<ResourceResult>, plan: UpdatePlan, item: ResourceResult)
    requires |plans| == |items|
    ensures PullsOf(plans + [plan], items + [item]) ==
            PullsOf(plans, items) + if AsksToPull(item) then [plan.newRef] else []
  {
    assert (plans + [plan])[..|plans|] == plans && (items + [item])[..|plans|] == items;
  }

  /** The pulls of a run are those of its plans: an updated or unchanged image was pulled in this run. */
  lemma {:induction false} PulledInRun(plans: seq<UpdatePlan>, items: seq<ResourceResult>, i: nat)
    requires |plans| == |items| && i < |plans| && AsksToPull(items[i])
    ensures plans[i].newRef in PullsOf(plans, items)
  {
    var n := |plans| - 1;
    if i < n { PulledInRun(plans[..n], items[..n], i); }
  }

  lemma {:induction false} MarkedPulls(plans: seq<UpdatePlan>, marked: seq<UpdatePlan>, items: seq<ResourceResult>)
    requires |plans| == |items| == |marked| && forall i :: 0 <= i < |plans| ==> marked[i].newRef == plans[i].newRef
    ensures PullsOf(marked, items) == PullsOf(plans, items)
  {
    if plans != [] {
      var n := |plans| - 1;
      MarkedPulls(plans[..n], marked[..n], items[..n]);
    }
  }

  /** Applies every plan in turn. */
  method ExecutePlans(h: Host, cfg: UpdaterConfig, out: RunResult, plans: seq<UpdatePlan>, options: Options,
                      hasPuller: bool)
    returns (executed: seq<UpdatePlan>, oldIDToNewRef: map<string, string>, oldRefToNewRef: map<string, string>)
    requires h.Valid() && Untouched(plans) && out.Tallies(0) && out.checked == 0 && out.items == []
    modifies h`images, h`pulls, out
    ensures h.Valid() && out.checked == |plans| && out.Tallies(|plans|)
    ensures Executes(options, plans, executed, out.items)
    ensures |executed| == |out.items| && h.pulls == old(h.pulls) + PullsOf(executed, out.items)
    ensures Requests(executed, out.items, oldIDToNewRef, oldRefToNewRef)
    ensures options.dryRun ==> h.images == old(h.images)
  {
    hide *;
    ghost var before := h.pulls;
    executed, oldIDToNewRef, oldRefToNewRef := [], map[], map[];
    NothingRequested();
    NothingExecuted(options, plans);
    for i := 0 to |plans|
      invariant h.Valid() && out.Tallies(i) && out.checked == i && |executed| == |out.items| == i
      invariant Executes(options, plans[..i], executed, out.items)
      invariant Requests(executed, out.items, oldIDToNewRef, oldRefToNewRef)
      invariant options.dryRun ==> h.images == old(h.images)
      invariant h.pulls == before + PullsOf(executed, out.items)
    {
      NotYetPulled(plans, i);
      var known: DigestCheck := *;
      var current: DigestCheck := *;
      var item, after := ExecuteUpdatePlan(h, cfg, plans[i], options, hasPuller, known, current);
      PullsSnoc(executed, out.items, after, item);
      OneMoreExecuted(options, plans, i, executed, out.items, after, item);
      OneMoreRequested(executed, out.items, oldIDToNewRef, oldRefToNewRef, after, item);
      out.AddPlanItem(item);
      if item.status == Updated {
        oldIDToNewRef := PointOldIDs(oldIDToNewRef, after);
        oldRefToNewRef := oldRefToNewRef[after.oldRef := after.newRef];
      }
      executed := executed + [after];
    }
    assert plans[..|plans|] == plans;
  }

  lemma NothingExecuted(options: Options, plans: seq<UpdatePlan>)
    ensures Executes(options, plans[..0], [], []) && PullsOf([], []) == [] && forall s: seq<string> :: s + [] == s
  {
  }

  lemma NotYetPulled(plans: seq<UpdatePlan>, i: nat)
    requires Untouched(plans) && i < |plans|
    ensures !plans[i].pulled
  {
  }

  lemma OneMoreExecuted(options: Options, plans: seq<UpdatePlan>, i: nat, executed: seq<UpdatePlan>,
                        items: seq<ResourceResult>, after: UpdatePlan, item: ResourceResult)
    requires i < |plans| && Executes(options, plans[..i], executed, items)
    requires after == plans[i].(pulled := after.pulled) && IsPlanItem(options, after, item)
    ensures Executes(options, plans[..i + 1], executed + [after], items + [item])
    ensures item.status != Restarted
  {
    assert plans[..i + 1] == plans[..i] + [plans[i]];
    assert forall k :: 0 <= k < i ==> (executed + [after])[k] == executed[k] && (items + [item])[k] == items[k];
  }

  /** Nothing to restart unless some plan was updated; otherwise a restart run, whose failures mark the
      plans to hold back. */
  method RestartAfterApply(h: Host, cfg: UpdaterConfig, out: RunResult, plans: seq<UpdatePlan>,
                           oldIDToNewRef: map<string, string>, oldRefToNewRef: map<string, string>, env: Environment)
    returns (ok: bool, marked: seq<UpdatePlan>, ghost request: Request, ghost run: Option<RunRecord>,
             ghost results: seq<ResourceResult>)
    requires h.Valid() && out.Tallies(out.checked)
    requires forall i :: 0 <= i < |plans| ==> !plans[i].restartFailed
    modifies h`containers, h`usedIDs, h`trace, out
    ensures h.Valid() && out.checked == old(out.checked) && out.Tallies(out.checked)
    ensures out.items == old(out.items) + results
    ensures |marked| == |plans|
    ensures forall i :: 0 <= i < |plans| ==>
              marked[i] == plans[i].(restartFailed := HeldBack(cfg, plans[i], FailedRefs(cfg, results)))
    ensures run.None? ==> results == [] && h.trace == old(h.trace) && h.containers == old(h.containers)
    ensures oldIDToNewRef == map[] == oldRefToNewRef ==> ok && run.None?
    ensures ok && run.None? ==> oldIDToNewRef == map[] == oldRefToNewRef
    ensures run.Some? ==>
      && ok && run.value.view == old(ViewOf(h)) && h.trace == old(h.trace) + Calls(run.value.log)
      && RunHolds(cfg, h.projects, request, h.atomicFailures, run.value, h.containers, results)
      && AsksFor(cfg, oldIDToNewRef, oldRefToNewRef, env, request)
  {
    hide *;
    results, run, request := [], None, Request(Updates(map[], map[]), {}, "");
    NothingFailed(cfg, plans);
    if |oldIDToNewRef| == 0 && |oldRefToNewRef| == 0 {
      return true, plans, request, None, [];
    }
    var updatedNorm := NormalizeMapKeys(cfg.normalize, oldRefToNewRef);
    var asked := Request(Updates(oldIDToNewRef, updatedNorm), env.excluded, env.proxyName);
    Asked(cfg, oldIDToNewRef, oldRefToNewRef, updatedNorm, env);
    request := asked;
    var restarted;
    restarted, run := RestartContainersUsingOldImages(h, cfg, asked, env.recentAPI);
    var containerResults := if restarted.Some? then restarted.value else [];
    results := containerResults;
    marked := MarkRestartFailedPlans(cfg, plans, containerResults);
    if run.Some? {
      RunResultsFinal(cfg, h.projects, request, h.atomicFailures, run.value, h.containers, results);
    }
    out.AddContainerItems(containerResults);
    return restarted.Some?, marked, request, run, results;
  }

  /** The request carries the updates as they are, the references under their normal forms. */
  ghost predicate AsksFor(cfg: UpdaterConfig, oldIDToNewRef: map<string, string>, oldRefToNewRef: map<string, string>,
                          env: Environment, request: Request)
  {
    && request.updates.oldIDToNewRef == oldIDToNewRef && request.excluded == env.excluded
    && request.proxyName == env.proxyName
    && (forall ref :: ref in oldRefToNewRef && cfg.normalize(ref) != "" ==>
          cfg.normalize(ref) in request.updates.updatedNorm)
    && (forall key :: key in request.updates.updatedNorm ==>
          key != "" && exists ref :: ref in oldRefToNewRef && cfg.normalize(ref) == key &&
                                     request.updates.updatedNorm[key] == oldRefToNewRef[ref])
  }

  lemma Asked(cfg: UpdaterConfig, oldIDToNewRef: map<string, string>, oldRefToNewRef: map<string, string>,
              updatedNorm: map<string, string>, env: Environment)
    requires forall ref :: ref in oldRefToNewRef && cfg.normalize(ref) != "" ==> cfg.normalize(ref) in updatedNorm
    requires forall key :: key in updatedNorm ==>
               key != "" && exists ref ::
                 ref in oldRefToNewRef && cfg.normalize(ref) == key && updatedNorm[key] == oldRefToNewRef[ref]
    ensures AsksFor(cfg, oldIDToNewRef, oldRefToNewRef, env,
                    Request(Updates(oldIDToNewRef, updatedNorm), env.excluded, env.proxyName))
  {
  }

  lemma NothingFailed(cfg: UpdaterConfig, plans: seq<UpdatePlan>)
    requires forall i :: 0 <= i < |plans| ==> !plans[i].restartFailed
    ensures FailedRefs(cfg, []) == {}
    ensures forall i :: 0 <= i < |plans| ==>
              plans[i] == plans[i].(restartFailed := HeldBack(cfg, plans[i], FailedRefs(cfg, [])))
  {
  }

  lemma RunResultsFinal(cfg: UpdaterConfig, projects: map<string, string>, request: Request, atomicFailures: bool,
                        run: RunRecord, after: Containers, results: seq<ResourceResult>)
    requires RunHolds(cfg, projects, request, atomicFailures, run, after, results)
    ensures forall i :: 0 <= i < |results| ==> results[i].status in {Updated, Restarted, Skipped, Failed}
  {
    forall i | 0 <= i < |results| ensures results[i].status in {Updated, Restarted, Skipped, Failed} {
      ResultsAreFinal(cfg, projects, run.log, results, i);
    }
  }

  /** The plans as they ended: each of a relevant record in store order, executed, and held back
      exactly if some container failed to move to its reference. */
  ghost predicate PlansEnd(cfg: UpdaterConfig, options: Options, records: Records, used: set<string>,
                           account: Account) {
    && (exists listed :: Lists(records, listed) && PlansRecords(account.plans, Relevant(cfg, used, listed)))
    && |account.planItems| == |account.plans|
    && (forall i :: 0 <= i < |account.plans| ==>
          && IsPlanItem(options, account.plans[i], account.planItems[i])
          && (account.plans[i].restartFailed <==>
                HeldBack(cfg, account.plans[i], FailedRefs(cfg, account.containerItems))))
    && Requests(account.plans, account.planItems, account.oldIDToNewRef, account.oldRefToNewRef)
  }

  /** The container results are those of a restart run that was asked for the updated plans' images. */
  ghost predicate RestartFits(cfg: UpdaterConfig, projects: map<string, string>, atomicFailures: bool, env: Environment,
                              account: Account, after: Containers)
  {
    if account.run.None? then account.containerItems == []
    else
      && RunHolds(cfg, projects, account.request, atomicFailures, account.run.value, after, account.containerItems)
      && AsksFor(cfg, account.oldIDToNewRef, account.oldRefToNewRef, env, account.request)
  }

  lemma RestartMade(cfg: UpdaterConfig, projects: map<string, string>, atomicFailures: bool, env: Environment,
                    account: Account, after: Containers)
    requires account.run.None? ==> account.containerItems == []
    requires account.run.Some? ==>
      && RunHolds(cfg, projects, account.request, atomicFailures, account.run.value, after, account.containerItems)
      && AsksFor(cfg, account.oldIDToNewRef, account.oldRefToNewRef, env, account.request)
    ensures RestartFits(cfg, projects, atomicFailures, env, account, after)
  {
  }

  /** The store lost the records that are done with, all of them unless the context was cancelled. */
  ghost predicate ClearsDone(before: Records, after: Records, plans: seq<UpdatePlan>, cancellable: bool) {
    exists gone :: gone <= DoneKeys(plans) && (!cancellable ==> gone == DoneKeys(plans)) && after == before - gone
  }

  /** The result tallies with the account, and is a success exactly without an error or a failed item. */
  ghost predicate ResultFits(out: RunResult, account: Account, ok: bool)
    reads out
  {
    && |account.planItems| == |account.plans| && out.Tallies(|account.plans|)
    && out.items == account.planItems + account.containerItems
    && (out.success <==> ok && NoneFailed(out.items))
  }

  /** Applies the pending updates of the store. `ok` tells a run without error; an error before the
      restart gives no account of the run to the caller. */
  method ApplyPending(h: Host, cfg: UpdaterConfig, store: MemoryPendingStore, options: Options, env: Environment)
    returns (out: RunResult?, ok: bool, ghost account: Account)
    requires h.Valid() && store.Valid()
    modifies h`images, h`pulls, h`containers, h`usedIDs, h`trace, store`records
    ensures h.Valid() && store.Valid() && (ok ==> out != null)
    ensures out != null ==>
      && fresh(out) && ResultFits(out, account, ok)
      && (env.usedImages.Some? ==> PlansEnd(cfg, options, old(store.records), env.usedImages.value, account))
    ensures !ok || options.dryRun ==> store.records == old(store.records)
    ensures options.dryRun ==> h.images == old(h.images) && h.containers == old(h.containers) && h.trace == old(h.trace)
    ensures ok ==> ClearsDone(old(store.records), store.records, account.plans, env.cancellable)
    ensures RestartFits(cfg, h.projects, h.atomicFailures, env, account, h.containers)
    ensures account.run.None? ==> h.trace == old(h.trace)
    ensures |account.planItems| == |account.plans|
    ensures h.pulls == old(h.pulls) + PullsOf(account.plans, account.planItems)
  {
    hide *;
    ghost var before := store.records;
    account := Account([], [], map[], map[], Request(Updates(map[], map[]), {}, ""), None, []);
    RestartMade(cfg, h.projects, h.atomicFailures, env, account, h.containers);
    NothingCleared(before, env.cancellable);
    NothingExecuted(options, []);
    var prepared, plans, listed := PreparePlans(h, cfg, store, env);
    if !prepared {
      return null, false, account;
    }
    if |plans| == 0 {
      out := new RunResult();
      out.Finish(true);
      EndsAtOnce(cfg, options, before, env, listed, plans);
      NothingCounted(out, account);
      return out, true, account;
    }
    var connected: bool := *;
    if !connected && !options.dryRun {
      return null, false, account;
    }
    out := new RunResult();
    ok, account := ApplyPlans(h, cfg, store, out, plans, options, env, listed);
  }

  /** Plans for the stored records that matter, none when there is nothing stored or used; fails if a
      lookup that is needed fails. */
  method PreparePlans(h: Host, cfg: UpdaterConfig, store: MemoryPendingStore, env: Environment)
    returns (ok: bool, plans: seq<UpdatePlan>, ghost listed: seq<ImageUpdateRecord>)
    requires store.Valid()
    ensures ok ==> Lists(store.records, listed) && Prepared(cfg, env, listed, plans)
    ensures !env.cancellable && env.usedImages.Some? ==> ok
    ensures env.usedImages.None? ==> plans == []
  {
    hide *;
    var cancelled: bool := *;
    cancelled := cancelled && env.cancellable;
    var records := store.PendingImageUpdates(cancelled);
    plans, listed := [], [];
    if records.None? {
      return false, plans, listed;
    }
    listed := records.value;
    NothingPlanned(cfg, env, listed);
    if |records.value| == 0 {
      return true, plans, listed;
    }
    if env.usedImages.None? {
      return false, plans, listed;
    }
    if |env.usedImages.value| == 0 {
      return true, plans, listed;
    }
    plans := BuildUpdatePlans(h, cfg, records.value, env.usedImages.value);
    IsPrepared(cfg, env, listed, plans);
    ok := true;
  }

  /** The plans are those of the relevant records; without anything stored there are none. */
  ghost predicate Prepared(cfg: UpdaterConfig, env: Environment, listed: seq<ImageUpdateRecord>,
                           plans: seq<UpdatePlan>) {
    && Untouched(plans)
    && if env.usedImages.Some? then PlansRecords(plans, Relevant(cfg, env.usedImages.value, listed)) else plans == []
  }

  lemma NothingPlanned(cfg: UpdaterConfig, env: Environment, listed: seq<ImageUpdateRecord>)
    ensures listed == [] ==> Prepared(cfg, env, listed, [])
    ensures env.usedImages == Some({}) ==> Prepared(cfg, env, listed, [])
  {
    NothingUsed(cfg, listed);
  }

  lemma IsPrepared(cfg: UpdaterConfig, env: Environment, listed: seq<ImageUpdateRecord>, plans: seq<UpdatePlan>)
    requires env.usedImages.Some? && PlansRecords(plans, Relevant(cfg, env.usedImages.value, listed))
    requires Untouched(plans)
    ensures Prepared(cfg, env, listed, plans)
  {
  }

  lemma PreparedPlans(cfg: UpdaterConfig, env: Environment, listed: seq<ImageUpdateRecord>, plans: seq<UpdatePlan>)
    requires Prepared(cfg, env, listed, plans) && plans != []
    ensures env.usedImages.Some? && PlansRecords(plans, Relevant(cfg, env.usedImages.value, listed)) && Untouched(plans)
  {
  }

  /** Carries the plans through: pull, restart, clear. */
  method ApplyPlans(h: Host, cfg: UpdaterConfig, store: MemoryPendingStore, out: RunResult, plans: seq<UpdatePlan>,
                    options: Options, env: Environment, ghost listed: seq<ImageUpdateRecord>)
    returns (ok: bool, ghost account: Account)
    requires h.Valid() && store.Valid() && out.Tallies(0) && out.checked == 0 && out.items == []
    requires Lists(store.records, listed) && Prepared(cfg, env, listed, plans) && plans != []
    modifies h`images, h`pulls, h`containers, h`usedIDs, h`trace, store`records, out
    ensures h.Valid() && store.Valid() && ResultFits(out, account, ok)
    ensures env.usedImages.Some? && PlansEnd(cfg, options, old(store.records), env.usedImages.value, account)
    ensures !ok || options.dryRun ==> store.records == old(store.records)
    ensures options.dryRun ==> h.images == old(h.images) && h.containers == old(h.containers) && h.trace == old(h.trace)
    ensures ok ==> ClearsDone(old(store.records), store.records, account.plans, env.cancellable)
    ensures RestartFits(cfg, h.projects, h.atomicFailures, env, account, h.containers)
    ensures account.run.None? ==> h.trace == old(h.trace)
    ensures |account.planItems| == |account.plans|
    ensures h.pulls == old(h.pulls) + PullsOf(account.plans, account.planItems)
  {
    hide *;
    ghost var before := store.records;
    PreparedPlans(cfg, env, listed, plans);
    var executed, oldIDToNewRef, oldRefToNewRef := ExecutePlans(h, cfg, out, plans, options, env.hasPuller);
    ghost var planItems := out.items;
    ExecutedPlans(options, plans, executed, planItems, oldIDToNewRef, oldRefToNewRef);
    var restarted, marked, request, run, results :=
      RestartAfterApply(h, cfg, out, executed, oldIDToNewRef, oldRefToNewRef, env);
    account := Account(marked, planItems, oldIDToNewRef, oldRefToNewRef, request, run, results);
    EndsWell(cfg, options, before, env.usedImages.value, listed, plans, executed, account);
    MarkedPulls(executed, marked, planItems);
    RestartMade(cfg, h.projects, h.atomicFailures, env, account, h.containers);
    if restarted {
      var gone := ClearAppliedPlanRecords(store, marked, env.cancellable);
      Clears(before, store.records, marked, env.cancellable, gone);
    }
    out.Finish(restarted);
    Counted(out, account, restarted);
    ok := restarted;
  }

  lemma Counted(out: RunResult, account: Account, ok: bool)
    requires |account.planItems| == |account.plans| && out.Tallies(|account.plans|)
    requires out.items == account.planItems + account.containerItems && (out.success <==> ok && NoneFailed(out.items))
    ensures ResultFits(out, account, ok)
  {
  }

  lemma NothingCounted(out: RunResult, account: Account)
    requires out.Tallies(0) && out.items == [] && out.success && account.plans == []
    requires account.planItems == [] == account.containerItems
    ensures ResultFits(out, account, true)
  {
  }

  lemma Clears(before: Records, after: Records, plans: seq<UpdatePlan>, cancellable: bool, gone: set<string>)
    requires gone <= DoneKeys(plans) && (!cancellable ==> gone == DoneKeys(plans)) && after == before - gone
    ensures ClearsDone(before, after, plans, cancellable)
    ensures DoneKeys(plans) == {} ==> after == before
  {
    assert before - {} == before;
  }

  lemma NothingCleared(records: Records, cancellable: bool)
    ensures ClearsDone(records, records, [], cancellable)
  {
    Clears(records, records - {}, [], cancellable, {});
    assert records - {} == records;
  }

  lemma ExecutedPlans(options: Options, plans: seq<UpdatePlan>, executed: seq<UpdatePlan>, items: seq<ResourceResult>,
                      oldIDToNewRef: map<string, string>, oldRefToNewRef: map<string, string>)
    requires Untouched(plans) && Executes(options, plans, executed, items)
    requires Requests(executed, items, oldIDToNewRef, oldRefToNewRef)
    ensures |executed| == |plans| == |items| && forall i :: 0 <= i < |executed| ==> !executed[i].restartFailed
    ensures options.dryRun ==> oldIDToNewRef == map[] == oldRefToNewRef
  {
  }

  lemma EndsWell(cfg: UpdaterConfig, options: Options, records: Records, used: set<string>,
                 listed: seq<ImageUpdateRecord>,
                 plans: seq<UpdatePlan>, executed: seq<UpdatePlan>, account: Account)
    requires Lists(records, listed) && PlansRecords(plans, Relevant(cfg, used, listed)) && Untouched(plans)
    requires Executes(options, plans, executed, account.planItems) && |account.plans| == |executed|
    requires Requests(executed, account.planItems, account.oldIDToNewRef, account.oldRefToNewRef)
    requires forall i :: 0 <= i < |executed| ==>
               account.plans[i] ==
               executed[i].(restartFailed := HeldBack(cfg, executed[i], FailedRefs(cfg, account.containerItems)))
    ensures PlansEnd(cfg, options, records, used, account)
    ensures options.dryRun ==> DoneKeys(account.plans) == {}
  {
    MarkedRequests(executed, account.plans, account.planItems, account.oldIDToNewRef, account.oldRefToNewRef);
    hide Requests, FailedRefs, Relevant, Lists;
  }

  lemma {:induction false} NothingUsed(cfg: UpdaterConfig, records: seq<ImageUpdateRecord>)
    ensures Relevant(cfg, {}, records) == []
  {
    if records != [] { NothingUsed(cfg, records[..|records| - 1]); }
  }

  /** A run with no plans has the empty account. */
  lemma EndsAtOnce(cfg: UpdaterConfig, options: Options, records: Records, env: Environment,
                   listed: seq<ImageUpdateRecord>, plans: seq<UpdatePlan>)
    requires Lists(records, listed) && plans == [] && Prepared(cfg, env, listed, plans)
    ensures env.usedImages.Some? ==>
      PlansEnd(cfg, options, records, env.usedImages.value,
               Account([], [], map[], map[], Request(Updates(map[], map[]), {}, ""), None, []))
  {
    hide Lists, Relevant;
  }

  // ---------- What is kept and what is cleared ----------

  lemma {:induction false} RelevantMembers(cfg: UpdaterConfig, used: set<string>, records: seq<ImageUpdateRecord>)
    ensures forall r :: r in Relevant(cfg, used, records) <==> r in records && IsRelevant(cfg, used, r)
  {
    if records != [] {
      RelevantMembers(cfg, used, records[..|records| - 1]);
      assert records == records[..|records| - 1] + [records[|records| - 1]];
    }
  }

  /** A stored record is done with exactly if it was relevant, its image was pulled, and no failed
      container result names the same new reference. */
  lemma DoneExactly(cfg: UpdaterConfig, options: Options, records: Records, used: set<string>, account: Account,
                    key: string)
    requires ProperRecords(records) && PlansEnd(cfg, options, records, used, account) && key in records
    ensures key in DoneKeys(account.plans) <==>
            IsRelevant(cfg, used, records[key]) && PulledFor(account, records[key]) &&
            cfg.normalize(NewImageRef(records[key])) !in FailedRefs(cfg, account.containerItems)
  {
    var plans := account.plans;
    forall i | 0 <= i < |plans|
      ensures StoreKey(plans[i].record) in records && records[StoreKey(plans[i].record)] == plans[i].record
      ensures IsRelevant(cfg, used, plans[i].record) && plans[i].newRef == NewImageRef(plans[i].record)
      ensures plans[i].pulled <==> account.planItems[i].status in {UpToDate, Updated}
      ensures plans[i].restartFailed <==> HeldBack(cfg, plans[i], FailedRefs(cfg, account.containerItems))
    {
      PlanOfRecord(cfg, options, records, used, account, i);
    }
    hide PlansEnd, ProperRecords, IsRelevant, FailedRefs, NewImageRef, StoreKey;
    if key in DoneKeys(plans) {
      var i :| 0 <= i < |plans| && plans[i].pulled && !plans[i].restartFailed && StoreKey(plans[i].record) == key;
      assert plans[i].record == records[key];
    }
    if PulledFor(account, records[key]) &&
      cfg.normalize(NewImageRef(records[key])) !in FailedRefs(cfg, account.containerItems) {
      var i :| 0 <= i < |plans| && plans[i].record == records[key] &&
        account.planItems[i].status in {UpToDate, Updated};
      KeyOfRecord(records, key);
      assert plans[i].pulled && !plans[i].restartFailed && StoreKey(plans[i].record) == key;
    }
  }

  lemma KeyOfRecord(records: Records, key: string)
    requires ProperRecords(records) && key in records
    ensures StoreKey(records[key]) == key
  {
  }

  lemma PlanOfRecord(cfg: UpdaterConfig, options: Options, records: Records, used: set<string>,
                     account: Account, i: nat)
    requires PlansEnd(cfg, options, records, used, account) && i < |account.plans|
    ensures var plan := account.plans[i];
      && StoreKey(plan.record) in records && records[StoreKey(plan.record)] == plan.record
      && IsRelevant(cfg, used, plan.record) && plan.newRef == NewImageRef(plan.record)
      && (plan.pulled <==> account.planItems[i].status in {UpToDate, Updated})
      && (plan.restartFailed <==> HeldBack(cfg, plan, FailedRefs(cfg, account.containerItems)))
  {
    var listed :| Lists(records, listed) && PlansRecords(account.plans, Relevant(cfg, used, listed));
    RelevantMembers(cfg, used, listed);
    var relevant := Relevant(cfg, used, listed);
    hide Relevant, FailedRefs, Requests, StoreKeys, NewImageRef, StoreKey, ImageRef, IsCurrentRef, IsNextRef,
      PlansRecord;
    assert PlansRecord(account.plans[i], relevant[i]) && relevant[i] in relevant;
    PlanNames(account.plans[i], relevant[i]);
    PlanIsOf(account.plans[i], relevant[i]);
  }

  lemma PlanIsOf(plan: UpdatePlan, record: ImageUpdateRecord)
    requires PlansRecord(plan, record)
    ensures plan.record == record
  {
  }

  /** The record's plan came through its pull. */
  ghost predicate PulledFor(account: Account, record: ImageUpdateRecord)
    requires |account.planItems| == |account.plans|
  {
    exists i :: 0 <= i < |account.plans| && account.plans[i].record == record &&
      account.planItems[i].status in {UpToDate, Updated}
  }

  /** The references held back are those a container failed to move to: one with a result other than a
      failed inspect, which names no reference. Normalizing must be idempotent on the plans' references. */
  lemma FailedRefsExactly(cfg: UpdaterConfig, projects: map<string, string>, log: RunLog, results: seq<ResourceResult>,
                          ref: string)
    requires AllFinished(cfg, projects, log, results)
    requires cfg.normalize("") == ""
    requires forall i :: 0 <= i < |log.handled| && log.handled[i].name in log.plans ==>
               var n := cfg.normalize(log.plans[log.handled[i].name].newRef); cfg.normalize(n) == n
    ensures ref in FailedRefs(cfg, results) <==> ref != "" && exists i :: FailsToMove(cfg, log, results, i, ref)
  {
    forall i | 0 <= i < |results| && results[i].status == Failed
      ensures log.handled[i].name in log.plans
      ensures results[i].newImage == if log.plans[log.handled[i].name].inspect.None? then ""
                                     else cfg.normalize(log.plans[log.handled[i].name].newRef)
    {
      FailureNames(cfg, projects, log, results, i);
    }
    hide AllFinished;
    if ref in FailedRefs(cfg, results) {
      var i :| 0 <= i < |results| && results[i].status == Failed && cfg.normalize(results[i].newImage) == ref;
      assert FailsToMove(cfg, log, results, i, ref);
    }
    if i :| ref != "" && FailsToMove(cfg, log, results, i, ref) {
      assert cfg.normalize(results[i].newImage) == ref;
    }
  }

  ghost predicate FailsToMove(cfg: UpdaterConfig, log: RunLog, results: seq<ResourceResult>, i: int, ref: string) {
    && 0 <= i < |results| && i < |log.handled| && results[i].status == Failed
    && log.handled[i].name in log.plans && log.plans[log.handled[i].name].inspect.Some?
    && cfg.normalize(log.plans[log.handled[i].name].newRef) == ref
  }

  lemma FailureNames(cfg: UpdaterConfig, projects: map<string, string>, log: RunLog,
                     results: seq<ResourceResult>, i: nat)
    requires AllFinished(cfg, projects, log, results) && i < |results| && results[i].status == Failed
    ensures |log.handled| == |results| && log.handled[i].name in log.plans
    ensures results[i].newImage == if log.plans[log.handled[i].name].inspect.None? then ""
                                   else cfg.normalize(log.plans[log.handled[i].name].newRef)
  {
    var c := log.handled[i];
    assert Finished(cfg, projects, log.groups, c, log.plans[c.name], log.kinds[i], results[i]);
    hide RouteOf, UniqueNames;
  }
}
