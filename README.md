# Export-state store of OneNote Md Exporter, in Dafny

OneNote Md Exporter exports OneNote notebooks to Markdown. To make exports incremental it
keeps, under the export root, a small JSON file `.export-state.json` that maps each notebook
identifier to the time of its last export. `ExportStateStore` owns that file: `Load` reads it
(degrading to an empty store on any failure), `GetLastExport` looks a notebook up,
`UpdateLastExport` records a new export time and marks the store dirty, and `Save` writes the
map back when it is dirty and clears the flag only when the write succeeds.

The model:

- `Wrappers.dfy`: `Option` (the C# `DateTime?`) and `Result`.
- `Text.dfy`: `string.IsNullOrWhiteSpace` over .NET's white-space characters. A C# `null`
  string is represented by the empty string; the test treats both alike.
- `DateTimes.dfy`: a `DateTime` as wall-clock ticks plus a `DateTimeKind`, the absolute
  `Instant` it denotes, and `ToUniversalTime` / `ToLocalTime` with .NET's reading of the
  unspecified kind (local for the first, UTC for the second). The host time zone is a fixed
  offset `zone`, passed to every operation that converts.
- `ExportState.dfy`: the store. The pure parts (`ParseDate`, the Load pipeline
  `ParsedEntries` / `LoadedEntries`, the save `Payload`) are functions; the state transitions
  are specified by `AfterUpdate`, `AfterSave` and `SaveEffectOf` on a `Snapshot` value; the
  class `ExportStateStore` holds `entries: map<string, DateTime>` and `dirty: bool`, updated in
  place by `UpdateLastExport` and `Save`, each proved against those functions.
- `ExportStateProofs.dfy`: the dirty flag over any run of calls, isolation of entries that do
  not parse, the round trip from `Save` to `Load`, and an export run that loads, updates,
  saves and reloads through the class.

The outside world enters as inputs: the outcome of looking for and reading the file
(`probe`, which gives for a path a `FileProbe`: missing, read failed, or its text), the JSON deserialiser's verdict on the text
(`Deserialized`: malformed, the literal `null`, or a string-to-string map), `DateTime.TryParse`
with round-trip kind (`tryParse`), the "o" formatter (`format`), the JSON serialiser
(`serialize`), and whether the write succeeded (`writeOk`). The round trip is proved under two
stated assumptions: parsing what the "o" format renders for a UTC value gives that value back
(and the rendering is never blank), and deserialising what the serialiser writes gives the same
map (and the text is never blank).

Two behaviours of the code that a reader might not expect, and that the model keeps:

- Keys read from the file are not filtered, so a blank identifier can be stored; it is only
  unreachable through `GetLastExport` and `UpdateLastExport`. No invariant claims otherwise.
- Values are accepted whenever `TryParse` accepts them, including strings with no offset,
  which come back with the unspecified kind and are kept as parsed; `Instant` reads them as
  local time, as `Save`'s `ToUniversalTime` does.

## Model

| member | source | states |
|---|---|---|
| `DateTimes.ToUniversalTime` | src/OneNoteMdExporter/Infrastructure/ExportStateStore.cs:88 | the result is tagged UTC and denotes the same instant; a UTC value is unchanged |
| `DateTimes.ToLocalTime` | src/OneNoteMdExporter/Infrastructure/ExportStateStore.cs:69 | the result is tagged local; UTC and local inputs keep their instant, a local one is unchanged; an unspecified one is read as UTC |
| `ExportState.StatePath` | src/OneNoteMdExporter/Infrastructure/ExportStateStore.cs:32 | the state file path is exactly the export root, one separator when the root does not already end with one, and `.export-state.json` |
| `ExportState.ParseDate` | src/OneNoteMdExporter/Infrastructure/ExportStateStore.cs:62-73 | a value parses exactly when it is not blank and `TryParse` accepts it; the result denotes the same instant; a UTC result is retagged local, any other is kept as parsed |
| `ExportState.LoadedEntries` | src/OneNoteMdExporter/Infrastructure/ExportStateStore.cs:34-59 | missing file, read failure, blank text, malformed JSON or `null` give no entries; otherwise the keys are exactly the raw keys whose value parses, each mapped to its parsed value |
| `ExportState.NormalizeToLocal` | src/OneNoteMdExporter/Infrastructure/ExportStateStore.cs:88-89 | the stored value is tagged local and denotes the same instant as the given time; a local time is stored unchanged |
| `ExportState.Payload` | src/OneNoteMdExporter/Infrastructure/ExportStateStore.cs:104 | the payload has exactly the stored keys, each value the rendering of its instant as a UTC time |
| `ExportState.AfterUpdate` | src/OneNoteMdExporter/Infrastructure/ExportStateStore.cs:83-91 | a blank identifier changes nothing; otherwise that key is set to the same instant tagged local, the other keys keep their values, and the store is dirty |
| `ExportState.AfterSave` | src/OneNoteMdExporter/Infrastructure/ExportStateStore.cs:93-113 | entries never change; the store is dirty afterwards exactly when it was dirty and the write failed |
| `ExportState.SaveEffectOf` | src/OneNoteMdExporter/Infrastructure/ExportStateStore.cs:93-113 | nothing is written exactly when the store is clean; a dirty store writes the serialised payload to its file path, or fails exactly when the write fails |
| `ExportState.ExportStateStore.constructor` | src/OneNoteMdExporter/Infrastructure/ExportStateStore.cs:19-23 | a new store holds the given path and entries and is clean |
| `ExportState.ExportStateStore.Load` | src/OneNoteMdExporter/Infrastructure/ExportStateStore.cs:25-60 | fails with an argument error naming `baseRoot` exactly when the root is blank; otherwise a fresh, clean store at the state file path holding `LoadedEntries` of what probing that path found |
| `ExportState.ExportStateStore.GetLastExport` | src/OneNoteMdExporter/Infrastructure/ExportStateStore.cs:75-81 | a value is returned exactly when the identifier is not blank and stored, and it is the stored value; the store is only read |
| `ExportState.ExportStateStore.UpdateLastExport` | src/OneNoteMdExporter/Infrastructure/ExportStateStore.cs:83-91 | the new state is `AfterUpdate` of the old one |
| `ExportState.ExportStateStore.Save` | src/OneNoteMdExporter/Infrastructure/ExportStateStore.cs:93-113 | the effect is `SaveEffectOf` the old state and the new state is `AfterSave` of it |
| `ExportStateProofs.DirtyIffPendingUpdate` | src/OneNoteMdExporter/Infrastructure/ExportStateStore.cs:83-113 | after any run of lookups, updates and saves, the store is dirty exactly when some update with a non-blank identifier was followed by no successful save, or it started dirty and no save succeeded |
| `ExportStateProofs.LoadedStoreDirtyTracking` | src/OneNoteMdExporter/Infrastructure/ExportStateStore.cs:17-23 | a freshly loaded store is clean, so it is dirty after a run exactly when an effective update has no successful save after it |
| `ExportStateProofs.SecondSaveWritesNothing` | src/OneNoteMdExporter/Infrastructure/ExportStateStore.cs:95-107 | after a successful save, or one on a clean store, a second save writes nothing and changes nothing |
| `ExportStateProofs.UpdateThenLookup` | src/OneNoteMdExporter/Infrastructure/ExportStateStore.cs:75-91 | after an update with a non-blank identifier a lookup gives the same instant, and lookups of every other identifier are as before |
| `ExportStateProofs.ParsedEntriesIsolation` | src/OneNoteMdExporter/Infrastructure/ExportStateStore.cs:47-51 | an entry whose value does not parse is dropped without affecting the others; one that parses is kept with its parsed value |
| `ExportStateProofs.SaveThenLoad` | src/OneNoteMdExporter/Infrastructure/ExportStateStore.cs:41-106 | under the format and JSON round-trip assumptions, loading what `Save` writes gives the same keys and instants, tagged local; local values come back unchanged |
| `ExportStateProofs.ExportRunRoundTrip` | src/OneNoteMdExporter/Infrastructure/ExportStateStore.cs:25-113 | load from a root with no state file, lookup finds nothing; update, save, reload from the same root, and the lookup finds the recorded instant |

## Left out

- File-system calls (`File.Exists`, `File.ReadAllText`, `File.WriteAllText`,
  `Directory.CreateDirectory`, `Path.GetDirectoryName`) are inputs: the path probe and `writeOk`.
  A failure of the directory creation and of the write are the same `WriteFailed` outcome.
- `Path.Combine` is modelled for a Unix host (`/` separator); Windows separators are not.
- JSON (de)serialisation by `System.Text.Json` is an input function; indentation of the output
  and the treatment of duplicate keys in the input are not modelled.
- `DateTime.TryParse` and the "o" format are input functions, related only by the stated
  round-trip assumption.
- Time zones are a fixed offset: daylight-saving rules, ambiguous local times, and the
  `DateTime` range with the clamping of conversions at its ends are not modelled; ticks are
  unbounded integers.
- The warnings logged through Serilog on load and save failures are side effects only.
- `IExportService` (src/OneNoteMdExporter/Services/Export/IExportService.cs) declares an
  interface with no logic and is not part of this model.
- Concurrent use and other processes writing the same file are not modelled; the store is not
  meant to be safe for them.
