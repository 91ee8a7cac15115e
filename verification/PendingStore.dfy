/** Pending image updates and the in-memory store that keeps them. */
module PendingStore {
  import opened Wrappers
  import opened Strings

  datatype UpdateType = DigestUpdate | TagUpdate | OtherUpdate

  datatype ImageUpdateRecord = ImageUpdateRecord(
    id: string,
    repository: string,
    tag: string,
    hasUpdate: bool,
    updateType: UpdateType,
    latestVersion: Option<string>,
    latestDigest: Option<string>)

  function ImageRef(record: ImageUpdateRecord): string {
    var repo, tag := TrimSpace(record.repository), TrimSpace(record.tag);
    if repo == "" || tag == "" then "" else repo + ":" + tag
  }

  /** The reference to pull: the latest version's for a tag update that knows one. */
  function NewImageRef(record: ImageUpdateRecord): string {
    var repo := TrimSpace(record.repository);
    if repo == "" then ""
    else if record.updateType.TagUpdate? && record.latestVersion.Some? && TrimSpace(record.latestVersion.value) != ""
    then repo + ":" + TrimSpace(record.latestVersion.value)
    else ImageRef(record)
  }

  // ---------- What a record names, told by its fields ----------

  /** The image a record is about: repository and tag, trimmed and neither blank. */
  ghost predicate IsCurrentRef(record: ImageUpdateRecord, ref: string) {
    var repo, tag := TrimSpace(record.repository), TrimSpace(record.tag);
    repo != "" && tag != "" && ref == repo + ":" + tag
  }

  /** The version a tag update is known to lead to. */
  ghost predicate KnowsVersion(record: ImageUpdateRecord, version: string) {
    record.updateType.TagUpdate? && record.latestVersion.Some? && version == TrimSpace(record.latestVersion.value) &&
    version != ""
  }

  /** The image a record's update leads to: that of a known version, or else the one it is about. */
  ghost predicate IsNextRef(record: ImageUpdateRecord, ref: string) {
    var repo := TrimSpace(record.repository);
    || (exists version :: KnowsVersion(record, version) && repo != "" && ref == repo + ":" + version)
    || ((forall version :: !KnowsVersion(record, version)) && IsCurrentRef(record, ref))
  }

  lemma RefsExactly(record: ImageUpdateRecord, ref: string)
    ensures ref != "" ==> (ImageRef(record) == ref <==> IsCurrentRef(record, ref))
    ensures ref != "" ==> (NewImageRef(record) == ref <==> IsNextRef(record, ref))
    ensures !IsCurrentRef(record, "") && !IsNextRef(record, "")
  {
    assert record.latestVersion.Some? && record.updateType.TagUpdate? && TrimSpace(record.latestVersion.value) != "" ==>
             KnowsVersion(record, TrimSpace(record.latestVersion.value));
    hide TrimSpace;
  }

  function StoreKey(record: ImageUpdateRecord): string {
    if record.id != "" then record.id else ImageRef(record)
  }

  type Records = map<string, ImageUpdateRecord>

  ghost predicate ProperRecords(records: Records) {
    forall key :: key in records ==> StoreKey(records[key]) == key
  }

  ghost function StoreKeys(records: seq<ImageUpdateRecord>): seq<string> {
    seq(|records|, i requires 0 <= i < |records| => StoreKey(records[i]))
  }

  /** `listed` is the stored records, each once, in the order of their keys. */
  ghost predicate Lists(records: Records, listed: seq<ImageUpdateRecord>) {
    && Increasing(StoreKeys(listed)) && Elements(StoreKeys(listed)) == records.Keys
    && forall i :: 0 <= i < |listed| ==> StoreKey(listed[i]) in records && records[StoreKey(listed[i])] == listed[i]
  }

  /** The last record of `key` among the first `n`. */
  ghost predicate IsLast(initial: seq<ImageUpdateRecord>, n: nat, key: string, i: nat)
    requires n <= |initial|
  {
    i < n && StoreKey(initial[i]) == key && forall j :: i < j < n ==> StoreKey(initial[j]) != key
  }

  /** Each key of the first `n` records holds its last one. */
  ghost predicate KeepsLast(initial: seq<ImageUpdateRecord>, n: nat, records: Records) {
    && n <= |initial| && (forall i :: 0 <= i < n ==> StoreKey(initial[i]) in records)
    && (forall key :: key in records ==> exists i: nat :: IsLast(initial, n, key, i) && records[key] == initial[i])
  }

  lemma OneMoreKept(initial: seq<ImageUpdateRecord>, n: nat, records: Records)
    requires n < |initial| && KeepsLast(initial, n, records)
    ensures KeepsLast(initial, n + 1, records[StoreKey(initial[n]) := initial[n]])
  {
    var more := records[StoreKey(initial[n]) := initial[n]];
    forall key | key in more ensures exists i: nat :: IsLast(initial, n + 1, key, i) && more[key] == initial[i] {
      if key == StoreKey(initial[n]) {
        assert IsLast(initial, n + 1, key, n) && more[key] == initial[n];
      } else {
        var i: nat :| IsLast(initial, n, key, i) && records[key] == initial[i];
        StillLast(initial, n, key, i);
        assert IsLast(initial, n + 1, key, i) && more[key] == initial[i];
      }
    }
    hide IsLast, StoreKey;
  }

  lemma StillLast(initial: seq<ImageUpdateRecord>, n: nat, key: string, i: nat)
    requires n < |initial| && IsLast(initial, n, key, i) && StoreKey(initial[n]) != key
    ensures IsLast(initial, n + 1, key, i)
  {
    hide StoreKey;
  }

  lemma KeptAreProper(initial: seq<ImageUpdateRecord>, n: nat, records: Records)
    requires KeepsLast(initial, n, records)
    ensures ProperRecords(records)
  {
    hide StoreKey;
  }

  /** A record with an ID is found under it, or a later one with the same ID, or a later one without an ID that
      is about an image of that very name. */
  lemma RecordsAreFound(initial: seq<ImageUpdateRecord>, records: Records, i: nat) returns (j: nat)
    requires KeepsLast(initial, |initial|, records) && i < |initial| && initial[i].id != ""
    ensures initial[i].id in records && i <= j < |initial| && records[initial[i].id] == initial[j]
    ensures initial[j].id == initial[i].id || (initial[j].id == "" && IsCurrentRef(initial[j], initial[i].id))
  {
    var key := initial[i].id;
    assert StoreKey(initial[i]) == key;
    j :| IsLast(initial, |initial|, key, j) && records[key] == initial[j];
    RefsExactly(initial[j], key);
    hide ImageRef, IsCurrentRef, IsNextRef;
  }

  /** A record without an ID is found by the name of the image it is about. */
  lemma NamedRecordsAreFound(initial: seq<ImageUpdateRecord>, records: Records, i: nat, ref: string) returns (j: nat)
    requires KeepsLast(initial, |initial|, records) && i < |initial| && initial[i].id == ""
    requires IsCurrentRef(initial[i], ref)
    ensures ref in records && i <= j < |initial| && records[ref] == initial[j]
    ensures initial[j].id == ref || (initial[j].id == "" && IsCurrentRef(initial[j], ref))
  {
    RefsExactly(initial[i], ref);
    assert StoreKey(initial[i]) == ref;
    j :| IsLast(initial, |initial|, ref, j) && records[ref] == initial[j];
    RefsExactly(initial[j], ref);
    hide ImageRef, IsCurrentRef, IsNextRef;
  }

  class MemoryPendingStore {
    var records: Records

    ghost predicate Valid()
      reads this
    {
      ProperRecords(records)
    }

    /** Of several records under one key the last is kept. */
    constructor (initial: seq<ImageUpdateRecord>)
      ensures Valid() && KeepsLast(initial, |initial|, records)
    {
      records := map[];
      new;
      for i := 0 to |initial|
        invariant KeepsLast(initial, i, records)
      {
        OneMoreKept(initial, i, records);
        hide *;
        records := records[StoreKey(initial[i]) := initial[i]];
      }
      KeptAreProper(initial, |initial|, records);
    }

    /** Every record, in key order; none when the caller's context is cancelled. */
    method PendingImageUpdates(cancelled: bool) returns (listed: Option<seq<ImageUpdateRecord>>)
      requires Valid()
      ensures listed.Some? <==> !cancelled
      ensures listed.Some? ==> Lists(records, listed.value)
    {
      if cancelled {
        return None;
      }
      var keys := SortedKeys(records.Keys);
      var out: seq<ImageUpdateRecord> := [];
      for i := 0 to |keys|
        invariant |out| == i && forall k :: 0 <= k < i ==> out[k] == records[keys[k]]
      {
        assert keys[i] in Elements(keys);
        out := out + [records[keys[i]]];
      }
      forall i | 0 <= i < |out| ensures StoreKey(out[i]) == keys[i] {
        assert keys[i] in Elements(keys);
      }
      assert StoreKeys(out) == keys;
      return Some(out);
    }

    method ClearImageUpdateRecord(record: ImageUpdateRecord, cancelled: bool) returns (ok: bool)
      requires Valid()
      modifies this`records
      ensures Valid() && ok == !cancelled
      ensures records == if ok then old(records) - {StoreKey(record)} else old(records)
    {
      if cancelled {
        return false;
      }
      records := records - {StoreKey(record)};
      return true;
    }
  }

  /** The records of an applied reference: those whose own update leads to it. A record that leads
      elsewhere from the same image is not among them. */
  ghost predicate LeadsTo(normalize: string -> string, imageRef: string, record: ImageUpdateRecord) {
    normalize(imageRef) != "" && normalize(NewImageRef(record)) == normalize(imageRef)
  }

  ghost function AppliedKeys(normalize: string -> string, imageRef: string, records: Records): set<string> {
    set key | key in records && LeadsTo(normalize, imageRef, records[key])
  }

  /** Which records an applied reference clears: those whose own update leads to a name of it. */
  lemma AppliedExactly(normalize: string -> string, imageRef: string, records: Records, key: string)
    requires normalize("") == ""
    ensures key in AppliedKeys(normalize, imageRef, records) <==>
            key in records && normalize(imageRef) != "" &&
            exists ref :: IsNextRef(records[key], ref) && normalize(ref) == normalize(imageRef)
  {
    if key in records && normalize(imageRef) != "" {
      var ref := NewImageRef(records[key]);
      RefsExactly(records[key], ref);
      if other :| IsNextRef(records[key], other) && normalize(other) == normalize(imageRef) {
        RefsExactly(records[key], other);
      }
      hide NewImageRef, IsNextRef;
    }
  }

  /** Clears the records of an applied reference, exactly those unless the context is cancelled. */
  method ClearPendingRecord(store: MemoryPendingStore, normalize: string -> string, imageRef: string, cancellable: bool)
    requires store.Valid()
    modifies store`records
    ensures store.Valid()
    ensures exists gone :: gone <= AppliedKeys(normalize, imageRef, old(store.records)) &&
              store.records == old(store.records) - gone
    ensures !cancellable ==>
      store.records == old(store.records) - AppliedKeys(normalize, imageRef, old(store.records))
  {
    ghost var before, gone: set<string> := store.records, {};
    assert store.records == before - {};
    var normalized := normalize(imageRef);
    if normalized == "" {
      return;
    }
    var cancelled: bool := *;
    cancelled := cancelled && cancellable;
    var listed := store.PendingImageUpdates(cancelled);
    if listed.None? {
      return;
    }
    var records := listed.value;
    NoneCleared(normalize, imageRef, before, records);
    for i := 0 to |records|
      invariant store.Valid() && store.records == before - gone
      invariant ClearedUpTo(normalize, imageRef, before, records, i, gone, cancellable)
    {
      OneMoreCleared(normalize, imageRef, before, records, i, gone, cancellable);
      hide *;
      if normalize(NewImageRef(records[i])) != normalized {
        continue;
      }
      cancelled := *;
      cancelled := cancelled && cancellable;
      var ok := store.ClearImageUpdateRecord(records[i], cancelled);
      if ok {
        assert before - gone - {StoreKey(records[i])} == before - (gone + {StoreKey(records[i])});
        gone := gone + {StoreKey(records[i])};
      }
    }
    AllCleared(normalize, imageRef, before, records, gone, cancellable);
  }

  /** What was cleared of the first `n` listed records: those of the reference, all unless cancelled. */
  ghost predicate ClearedUpTo(normalize: string -> string, imageRef: string, records: Records,
                              listed: seq<ImageUpdateRecord>, n: nat, gone: set<string>, cancellable: bool)
  {
    && n <= |listed| && gone <= AppliedKeys(normalize, imageRef, records)
    && (!cancellable ==> forall k :: 0 <= k < n && LeadsTo(normalize, imageRef, listed[k]) ==>
          StoreKey(listed[k]) in gone)
  }

  lemma NoneCleared(normalize: string -> string, imageRef: string, records: Records, listed: seq<ImageUpdateRecord>)
    ensures forall cancellable :: ClearedUpTo(normalize, imageRef, records, listed, 0, {}, cancellable)
  {
  }

  lemma OneMoreCleared(normalize: string -> string, imageRef: string, records: Records, listed: seq<ImageUpdateRecord>,
                       n: nat, gone: set<string>, cancellable: bool)
    requires Lists(records, listed) && n < |listed| && normalize(imageRef) != ""
    requires ClearedUpTo(normalize, imageRef, records, listed, n, gone, cancellable)
    ensures if normalize(NewImageRef(listed[n])) != normalize(imageRef) then
              ClearedUpTo(normalize, imageRef, records, listed, n + 1, gone, cancellable)
            else
              && ClearedUpTo(normalize, imageRef, records, listed, n + 1, gone + {StoreKey(listed[n])}, cancellable)
              && (cancellable ==> ClearedUpTo(normalize, imageRef, records, listed, n + 1, gone, cancellable))
  {
    hide NewImageRef, StoreKey, StoreKeys;
    assert records[StoreKey(listed[n])] == listed[n];
  }

  lemma AllCleared(normalize: string -> string, imageRef: string, records: Records, listed: seq<ImageUpdateRecord>,
                   gone: set<string>, cancellable: bool)
    requires Lists(records, listed) && ClearedUpTo(normalize, imageRef, records, listed, |listed|, gone, cancellable)
    ensures gone <= AppliedKeys(normalize, imageRef, records)
    ensures !cancellable ==> gone == AppliedKeys(normalize, imageRef, records)
  {
    hide LeadsTo, StoreKey;
    forall key | key in AppliedKeys(normalize, imageRef, records) && !cancellable ensures key in gone {
      assert key in Elements(StoreKeys(listed));
      var k :| 0 <= k < |listed| && StoreKeys(listed)[k] == key;
      assert records[StoreKey(listed[k])] == listed[k];
    }
  }
}
