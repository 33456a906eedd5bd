/** The export-state store: a map from notebook identifier to the time of its last
    export, kept in `.export-state.json` under an export root, with a flag that says
    whether the map holds changes not yet written back.

    The outside world is given to the model as inputs: what reading the state file
    found, what the JSON deserialiser made of its text, what `DateTime.TryParse` makes
    of a value, how a UTC value is rendered in the round-trip ("o") format, what the
    JSON serialiser writes, whether the write succeeded, and the host's time zone. */
module ExportState {
  import opened Wrappers
  import opened Text
  import opened DateTimes

  /** The name of the state file inside the export root. */
  const StateFileName: string := ".export-state.json"

  /** The directory separator `Path.Combine` inserts (that of a Unix host). */
  const DirectorySeparator: char := '/'

  /** `Path.Combine(baseRoot, StateFileName)`: the state file's path, which is the export
      root, one separator unless the root already ends with one, and the file name. */
  function StatePath(baseRoot: string): (path: string)
    ensures |path| >= |baseRoot| + |StateFileName|
    ensures path[..|baseRoot|] == baseRoot
    ensures path[|path| - |StateFileName|..] == StateFileName
    ensures |path| == |baseRoot| + |StateFileName|
                      + (if baseRoot == [] || baseRoot[|baseRoot| - 1] == DirectorySeparator then 0 else 1)
    ensures baseRoot != [] && baseRoot[|baseRoot| - 1] != DirectorySeparator ==>
              path[|baseRoot|] == DirectorySeparator
  {
    if baseRoot == [] || baseRoot[|baseRoot| - 1] == DirectorySeparator then baseRoot + StateFileName
    else baseRoot + [DirectorySeparator] + StateFileName
  }

  /** What looking for and reading a file found: no file, a read that threw, or the
      file's text. `Load` is given a function from path to this outcome. */
  datatype FileProbe = Missing | ReadFailed | Contents(text: string)

  /** What deserialising the text as a JSON object of strings gave: an exception, the
      JSON literal `null`, or the raw entries. A JSON `null` value of an entry is
      represented by the empty string. */
  datatype Deserialized = Malformed | NullLiteral | Object(raw: map<string, string>)

  /** `ParseDate`: a raw value becomes a time when it is not blank and `TryParse`
      (round-trip kind) accepts it; a UTC result is retagged local without moving in time. */
  function ParseDate(rawValue: string, tryParse: string -> Option<DateTime>, zone: int): (r: Option<DateTime>)
    ensures r.Some? <==> !IsBlank(rawValue) && tryParse(rawValue).Some?
    ensures r.Some? ==> Instant(r.value, zone) == Instant(tryParse(rawValue).value, zone)
    ensures r.Some? && tryParse(rawValue).value.kind == Utc ==> r.value.kind == Local
    ensures r.Some? && tryParse(rawValue).value.kind != Utc ==> r.value == tryParse(rawValue).value
  {
    if IsBlank(rawValue) then None
    else match tryParse(rawValue)
      case Some(parsed) => Some(if parsed.kind == Utc then ToLocalTime(parsed, zone) else parsed)
      case None => None
  }

  /** The Select/Where/ToDictionary pipeline of `Load`: every raw entry whose value parses,
      with its parsed value. */
  function ParsedEntries(raw: map<string, string>, tryParse: string -> Option<DateTime>, zone: int): map<string, DateTime>
  {
    map k | k in raw && ParseDate(raw[k], tryParse, zone).Some? :: ParseDate(raw[k], tryParse, zone).value
  }

  /** The entries `Load` starts from once its argument is accepted. Every failure to find,
      read or deserialise the file degrades to no entries; otherwise the entries are exactly
      the raw ones whose value parses, each with its parsed value. */
  function LoadedEntries(file: FileProbe, deserialize: string -> Deserialized,
                         tryParse: string -> Option<DateTime>, zone: int): (m: map<string, DateTime>)
    ensures file.Missing? || file.ReadFailed? ==> m == map[]
    ensures file.Contents? && IsBlank(file.text) ==> m == map[]
    ensures file.Contents? && !deserialize(file.text).Object? ==> m == map[]
    ensures file.Contents? && !IsBlank(file.text) && deserialize(file.text).Object? ==>
              var raw := deserialize(file.text).raw;
              && m.Keys <= raw.Keys
              && (forall k | k in raw :: k in m <==> ParseDate(raw[k], tryParse, zone).Some?)
              && (forall k | k in m :: ParseDate(raw[k], tryParse, zone) == Some(m[k]))
  {
    match file
    case Missing => map[]
    case ReadFailed => map[]
    case Contents(text) =>
      if IsBlank(text) then map[]
      else match deserialize(text)
        case Malformed => map[]
        case NullLiteral => map[]
        case Object(raw) => ParsedEntries(raw, tryParse, zone)
  }

  /** The stored time of a notebook, or none for a blank or unknown identifier. */
  function Lookup(entries: map<string, DateTime>, notebookId: string): Option<DateTime>
  {
    if IsBlank(notebookId) then None
    else if notebookId in entries then Some(entries[notebookId])
    else None
  }

  /** The value `UpdateLastExport` stores: the given time brought to UTC and back to local
      time, which is the same instant tagged local. */
  function NormalizeToLocal(timestamp: DateTime, zone: int): (r: DateTime)
    ensures r.kind == Local
    ensures Instant(r, zone) == Instant(timestamp, zone)
    ensures timestamp.kind == Local ==> r == timestamp
  {
    var normalized := if timestamp.kind == Utc then timestamp else ToUniversalTime(timestamp, zone);
    ToLocalTime(normalized, zone)
  }

  /** The dictionary `Save` serialises: every stored identifier, with its instant in UTC
      rendered by `format`. */
  function Payload(entries: map<string, DateTime>, format: DateTime -> string, zone: int): (p: map<string, string>)
    ensures p.Keys == entries.Keys
    ensures forall k | k in p :: p[k] == format(DateTime(Instant(entries[k], zone), Utc))
  {
    map k | k in entries :: format(ToUniversalTime(entries[k], zone))
  }

  /** The store's state as a value: its entries and its dirty flag. */
  datatype Snapshot = Snapshot(entries: map<string, DateTime>, dirty: bool)

  /** The state after `UpdateLastExport`: nothing changes for a blank identifier; otherwise
      the identifier's entry is overwritten with the same instant tagged local, every other
      entry is kept, and the store is dirty. */
  function AfterUpdate(s: Snapshot, notebookId: string, timestamp: DateTime, zone: int): (r: Snapshot)
    ensures IsBlank(notebookId) ==> r == s
    ensures !IsBlank(notebookId) ==>
              && r.dirty
              && r.entries.Keys == s.entries.Keys + {notebookId}
              && r.entries[notebookId].kind == Local
              && Instant(r.entries[notebookId], zone) == Instant(timestamp, zone)
              && (forall k | k in s.entries && k != notebookId :: r.entries[k] == s.entries[k])
  {
    if IsBlank(notebookId) then s
    else Snapshot(s.entries[notebookId := NormalizeToLocal(timestamp, zone)], true)
  }

  /** What `Save` did to the outside world: nothing, a write of `text` to `path`, or a
      write (or directory creation) that threw. */
  datatype SaveEffect = Skipped | Written(path: string, text: string) | WriteFailed

  /** The state after `Save`: the entries never change, and the store is clean afterwards
      exactly when it was clean before or the write succeeded. */
  function AfterSave(s: Snapshot, writeOk: bool): (r: Snapshot)
    ensures r.entries == s.entries
    ensures r.dirty <==> s.dirty && !writeOk
  {
    if s.dirty && writeOk then s.(dirty := false) else s
  }

  /** What `Save` does outside: a clean store writes nothing; a dirty one writes the
      serialised payload to the state file, or fails. */
  function SaveEffectOf(s: Snapshot, filePath: string, writeOk: bool, format: DateTime -> string,
                        serialize: map<string, string> -> string, zone: int): (e: SaveEffect)
    ensures e.Skipped? <==> !s.dirty
    ensures e.WriteFailed? <==> s.dirty && !writeOk
    ensures e.Written? ==> e.path == filePath && e.text == serialize(Payload(s.entries, format, zone))
  {
    if !s.dirty then Skipped
    else if writeOk then Written(filePath, serialize(Payload(s.entries, format, zone)))
    else WriteFailed
  }

  /** Why `Load` refused its argument: `ArgumentException` naming the parameter. */
  datatype LoadError = ArgumentError(paramName: string)

  /** `ExportStateStore`: the entries and the dirty flag are updated in place. */
  class ExportStateStore {
    const filePath: string
    var entries: map<string, DateTime>
    var dirty: bool

    /** The store's state as a value. */
    function State(): Snapshot
      reads this
    {
      Snapshot(entries, dirty)
    }

    /** The private constructor: a store is clean when it is made. */
    constructor (filePath: string, entries: map<string, DateTime>)
      ensures this.filePath == filePath
      ensures State() == Snapshot(entries, false)
    {
      this.filePath := filePath;
      this.entries := entries;
      this.dirty := false;
    }

    /** `Load`: a blank export root is the one error reported to the caller; otherwise a
        clean store at the state file's path, holding what probing that path yields. */
    static method Load(baseRoot: string, probe: string -> FileProbe, deserialize: string -> Deserialized,
                       tryParse: string -> Option<DateTime>, zone: int)
      returns (r: Result<ExportStateStore, LoadError>)
      ensures r.Failure? <==> IsBlank(baseRoot)
      ensures r.Failure? ==> r.error == ArgumentError("baseRoot")
      ensures r.Success? ==> fresh(r.value)
      ensures r.Success? ==> r.value.filePath == StatePath(baseRoot)
      ensures r.Success? ==>
                r.value.State() == Snapshot(LoadedEntries(probe(StatePath(baseRoot)), deserialize, tryParse, zone), false)
    {
      if IsBlank(baseRoot) {
        return Failure(ArgumentError("baseRoot"));
      }
      var path := StatePath(baseRoot);
      var store := new ExportStateStore(path, LoadedEntries(probe(path), deserialize, tryParse, zone));
      return Success(store);
    }

    /** `GetLastExport`: the stored time of a notebook; none for a blank identifier, even one
        the file stored, and none for an unknown one. */
    function GetLastExport(notebookId: string): (r: Option<DateTime>)
      reads this
      ensures r.Some? <==> !IsBlank(notebookId) && notebookId in entries
      ensures r.Some? ==> r.value == entries[notebookId]
    {
      Lookup(entries, notebookId)
    }

    /** `UpdateLastExport`: overwrite one notebook's time and mark the store dirty. */
    method UpdateLastExport(notebookId: string, timestamp: DateTime, zone: int)
      modifies this
      ensures State() == AfterUpdate(old(State()), notebookId, timestamp, zone)
    {
      if IsBlank(notebookId) {
        return;
      }
      entries := entries[notebookId := NormalizeToLocal(timestamp, zone)];
      dirty := true;
    }

    /** `Save`: write the entries back when the store is dirty, and clean it only when the
        write succeeds. */
    method Save(writeOk: bool, format: DateTime -> string, serialize: map<string, string> -> string, zone: int)
      returns (effect: SaveEffect)
      modifies this
      ensures effect == SaveEffectOf(old(State()), filePath, writeOk, format, serialize, zone)
      ensures State() == AfterSave(old(State()), writeOk)
    {
      if !dirty {
        return Skipped;
      }
      if writeOk {
        var payload := Payload(entries, format, zone);
        effect := Written(filePath, serialize(payload));
        dirty := false;
      } else {
        effect := WriteFailed;
      }
    }
  }
}
