/** Properties of the export-state store that relate several operations: the dirty flag
    over any run of calls, the isolation of malformed entries in `Load`, and the round
    trip from `Save` back to `Load`. */
module ExportStateProofs {
  import opened Wrappers
  import opened Text
  import opened DateTimes
  import opened ExportState

  /** A call on a loaded store. */
  datatype Op = Get(notebookId: string) | Update(notebookId: string, timestamp: DateTime) | Save(writeOk: bool)

  /** The state after one call. */
  function Step(s: Snapshot, op: Op, zone: int): Snapshot
  {
    match op
    case Get(_) => s
    case Update(id, t) => AfterUpdate(s, id, t, zone)
    case Save(writeOk) => AfterSave(s, writeOk)
  }

  /** The state after a run of calls, the last one applied last. */
  function Run(s: Snapshot, ops: seq<Op>, zone: int): Snapshot
    decreases |ops|
  {
    if ops == [] then s else Step(Run(s, ops[..|ops| - 1], zone), ops[|ops| - 1], zone)
  }

  /** An update with a non-blank identifier, at position `i` of the run. */
  predicate IsEffectiveUpdate(ops: seq<Op>, i: int)
  {
    0 <= i < |ops| && ops[i].Update? && !IsBlank(ops[i].notebookId)
  }

  /** No save of the run after position `i` succeeded. */
  predicate NoSuccessfulSaveAfter(ops: seq<Op>, i: int)
  {
    forall j | 0 <= j < |ops| && i < j :: ops[j] != Save(true)
  }

  /** Some update of the run changed the store and no successful save followed it. */
  ghost predicate PendingUpdate(ops: seq<Op>)
  {
    exists i :: IsEffectiveUpdate(ops, i) && NoSuccessfulSaveAfter(ops, i)
  }

  /** The dirty flag over any run: the store is dirty exactly when an update changed it
      and no save succeeded since, or it started dirty and no save succeeded since. */
  lemma {:induction false} DirtyIffPendingUpdate(s: Snapshot, ops: seq<Op>, zone: int)
    ensures Run(s, ops, zone).dirty <==> PendingUpdate(ops) || (s.dirty && NoSuccessfulSaveAfter(ops, -1))
  {
    if ops != [] {
      var n := |ops| - 1;
      var pre, op := ops[..n], ops[n];
      DirtyIffPendingUpdate(s, pre, zone);
      assert forall j | 0 <= j < n :: ops[j] == pre[j];
      if IsEffectiveUpdate(ops, n) {
        assert NoSuccessfulSaveAfter(ops, n);
      } else if op == Save(true) {
        assert !NoSuccessfulSaveAfter(ops, -1);
        forall i | IsEffectiveUpdate(ops, i)
          ensures !NoSuccessfulSaveAfter(ops, i)
        {
          assert i < n && ops[n] == Save(true);
        }
      } else {
        if PendingUpdate(pre) {
          var i :| IsEffectiveUpdate(pre, i) && NoSuccessfulSaveAfter(pre, i);
          assert IsEffectiveUpdate(ops, i) && NoSuccessfulSaveAfter(ops, i);
        }
        if PendingUpdate(ops) {
          var i :| IsEffectiveUpdate(ops, i) && NoSuccessfulSaveAfter(ops, i);
          assert IsEffectiveUpdate(pre, i) && NoSuccessfulSaveAfter(pre, i);
        }
      }
    }
  }

  /** A freshly loaded store is clean, so it is dirty after a run exactly when an update
      changed it and no save succeeded since. */
  lemma LoadedStoreDirtyTracking(entries: map<string, DateTime>, ops: seq<Op>, zone: int)
    ensures Run(Snapshot(entries, false), ops, zone).dirty <==> PendingUpdate(ops)
  {
    DirtyIffPendingUpdate(Snapshot(entries, false), ops, zone);
  }

  /** A save that succeeded, or found nothing to write, leaves a clean store, so saving
      again writes nothing and changes nothing. */
  lemma SecondSaveWritesNothing(s: Snapshot, filePath: string, first: bool, second: bool,
                                format: DateTime -> string, serialize: map<string, string> -> string, zone: int)
    requires !s.dirty || first
    ensures SaveEffectOf(AfterSave(s, first), filePath, second, format, serialize, zone) == Skipped
    ensures AfterSave(AfterSave(s, first), second) == AfterSave(s, first)
  {
  }

  /** After an update with a non-blank identifier, a lookup of that identifier gives the same
      instant, and a lookup of any other identifier gives what it gave before. */
  lemma UpdateThenLookup(s: Snapshot, notebookId: string, other: string, timestamp: DateTime, zone: int)
    requires !IsBlank(notebookId) && other != notebookId
    ensures var r := AfterUpdate(s, notebookId, timestamp, zone);
            && Lookup(r.entries, notebookId).Some?
            && Instant(Lookup(r.entries, notebookId).value, zone) == Instant(timestamp, zone)
            && Lookup(r.entries, other) == Lookup(s.entries, other)
  {
  }

  /** An entry whose value does not parse is dropped from `Load`'s pipeline without
      affecting the other entries; one whose value parses is kept with that value. */
  lemma ParsedEntriesIsolation(raw: map<string, string>, key: string, value: string,
                                tryParse: string -> Option<DateTime>, zone: int)
    ensures ParseDate(value, tryParse, zone).None? ==>
              ParsedEntries(raw[key := value], tryParse, zone) == ParsedEntries(raw, tryParse, zone) - {key}
    ensures ParseDate(value, tryParse, zone).Some? ==>
              ParsedEntries(raw[key := value], tryParse, zone)
                == ParsedEntries(raw, tryParse, zone)[key := ParseDate(value, tryParse, zone).value]
  {
  }

  /** The round-trip ("o") format: rendering a UTC value never gives a blank string, and
      `TryParse` with round-trip kind gives the value back. */
  ghost predicate FormatRoundTrips(format: DateTime -> string, tryParse: string -> Option<DateTime>)
  {
    forall u: DateTime | u.kind == Utc :: !IsBlank(format(u)) && tryParse(format(u)) == Some(u)
  }

  /** The JSON serialiser writes non-blank text that deserialises to the same object. */
  ghost predicate JsonRoundTrips(serialize: map<string, string> -> string, deserialize: string -> Deserialized)
  {
    forall p: map<string, string> :: !IsBlank(serialize(p)) && deserialize(serialize(p)) == Object(p)
  }

  /** Loading the text `Save` writes gives back the same identifiers with the same instants,
      each tagged local; a value already tagged local comes back unchanged. */
  lemma SaveThenLoad(entries: map<string, DateTime>, format: DateTime -> string,
                      serialize: map<string, string> -> string, deserialize: string -> Deserialized,
                      tryParse: string -> Option<DateTime>, zone: int)
    requires FormatRoundTrips(format, tryParse)
    requires JsonRoundTrips(serialize, deserialize)
    ensures var loaded := LoadedEntries(Contents(serialize(Payload(entries, format, zone))), deserialize, tryParse, zone);
            && loaded.Keys == entries.Keys
            && (forall k | k in loaded :: Instant(loaded[k], zone) == Instant(entries[k], zone))
            && (forall k | k in loaded :: loaded[k].kind == Local)
            && (forall k | k in loaded && entries[k].kind == Local :: loaded[k] == entries[k])
  {
  }

  /** The state file as the file system holds it: a map from path to text. */
  function Probe(disk: map<string, string>, path: string): FileProbe
  {
    if path in disk then Contents(disk[path]) else Missing
  }

  /** An incremental export run as the export pipeline drives it: load from an export root
      that has no state file, look a notebook up, record its export, save, and load again
      from the same root. The first lookup finds nothing; the second finds the recorded
      instant. */
  method ExportRunRoundTrip(baseRoot: string, notebookId: string, now: DateTime, disk: map<string, string>,
                            format: DateTime -> string, serialize: map<string, string> -> string,
                            deserialize: string -> Deserialized, tryParse: string -> Option<DateTime>, zone: int)
    returns (before: Option<DateTime>, after: Option<DateTime>)
    requires !IsBlank(baseRoot) && !IsBlank(notebookId)
    requires StatePath(baseRoot) !in disk
    requires FormatRoundTrips(format, tryParse)
    requires JsonRoundTrips(serialize, deserialize)
    ensures before == None
    ensures after.Some? && after.value.kind == Local
    ensures Instant(after.value, zone) == Instant(now, zone)
  {
    var first := ExportStateStore.Load(baseRoot, path => Probe(disk, path), deserialize, tryParse, zone);
    var store := first.value;
    before := store.GetLastExport(notebookId);
    store.UpdateLastExport(notebookId, now, zone);
    var saved := store.entries;
    var effect := store.Save(true, format, serialize, zone);
    var disk' := disk[effect.path := effect.text];
    SaveThenLoad(saved, format, serialize, deserialize, tryParse, zone);
    var second := ExportStateStore.Load(baseRoot, path => Probe(disk', path), deserialize, tryParse, zone);
    after := second.value.GetLastExport(notebookId);
  }
}
