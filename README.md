# File fuser — a Dafny model

The file fuser concatenates a configured, ordered list of JavaScript files into one combined file. It does four things:

- It starts the combined file with a header that names every file.
- For each file, it writes a `;// <path>:` marker line, the file's raw contents and a blank-line separator.
- Alongside the combined file, it records a line-to-line position map. Each file gets `linesInFile + 1` records, one for each of its lines and one for the separator line after it, each pointing back into the source file. Header lines and marker lines get no record.
- It watches the files and rebuilds the combined file only when one of them changed since the last build. A request for the combined file first makes sure the file watcher is running.

The model covers the `FileFuser` object of `index.js`: its constructor, `createHeader`, `writeFilesInto`, `checkIfCombinedFilesAreUpToDate`, `ensureFileWatcher`, `withCombinedFileStreamDo` and `close`.

Modules:

- `Common` holds the shared types: paths, the error kinds, `Option` and `Result`.
- `LineBreaks` is the line-break pattern `\r\n|[\n\r\u0085\u2028\u2029]` and the split it performs (`SplitLines`, `Breaks`). Its lemmas: the split round-trips, the pieces hold no breaks, and the split of a concatenation is glued from the splits of its parts.
- `Header` is the generated header and the quoted, comma-separated file list in it. The file list parses back to the configured list.
- `Fusion` holds the build as a pure specification:
  - `FuseFiles` and `Fuse` give the combined text, the position-map records (`Mapping`, the arguments of each `addMapping` call) and the path that failed to read;
  - the lemmas cover the text's exact shape, the number of records, their fields, and strictly increasing generated lines.
- `Alignment` proves that every record points at the line of the combined file that holds the source line it names. It also gives the input for which that fails (see "Left out"). "Line" here is the fuser's own notion, the pieces of its break pattern, so U+0085 ends a line.
- `Staleness` is the up-to-date decision.
- `WatcherLifecycle` is the start-up state machine over `fileWatcher`, `_fileWatcherIsStarting` and `_startSentinel`. Each event is one call or callback.
- `Requests` is one request as a state transition: ensure the watcher, check staleness, rebuild only when stale.
- `FileFuserEngine` holds the `FileFuser` class. Its fields are updated in place, and each of its methods is proved equal to the functions above. `WriteFilesInto` runs the series of tasks: the header, then one task per file. `FileTask` writes one file and counts its lines; it appends the records with the source's counting loop.

Inputs that the program gets from the outside world are parameters:

- `disk` maps each path to the contents of a readable file; a path missing from it cannot be read.
- `fileExists` says whether the combined file exists.
- `answer` is the watcher's reply to the change query.
- `now` is the build time.
- `stamp` is the printed form of that time.

The model follows the code where the code and the intended design differ:

- After each file the code writes `"\n\n"` (`index.js:95`), and its cursor arithmetic (`index.js:96`) agrees with that. The separator here is therefore two line feeds.
- The up-to-date check does not look at whether a build ever happened. It queries the watcher for changes since the stored build time, whatever that is (`index.js:115`, `index.js:123`).
- A failed build still sets the build time (`index.js:63`). A later request that finds no changes therefore serves the partial combined file instead of retrying. `Requests.FailedBuildIsServedNext` states this.
- In the header, the quoted file list is printed the way `util.format`'s `%s` prints an array in Node.js before version 12: joined with commas, without spaces or brackets. From version 12 on, `%s` prints an array through `util.inspect`; the model does not follow that runtime.

## Model

| member | source | states |
|---|---|---|
| FileFuserEngine.FileFuser.constructor | index.js:20-29 | the fields come from the options; the position-map file is the combined file's name plus `.jsm`; there is no watcher, no start in flight and no build time |
| FileFuserEngine.NewFileFuser | index.js:20-21 | a missing options object is refused; otherwise a fresh fuser is returned with the configured base directory, files, combined file, `.jsm` side-file name and source root, no watcher, no build time, nothing written and no build run |
| FileFuserEngine.SourceMapFileName | index.js:27 | the position-map file's name extends the combined file's name by four characters |
| Header.Manifest | index.js:59 | the file list is empty exactly when no file is configured; otherwise it starts and ends with a single quote |
| Header.HeaderFields | index.js:55-60 | createHeader: the stamp follows the generation comment, the file list follows the loader call's opening, and the header ends in a blank line |
| Header.ManifestRoundTrip | index.js:55-60 | when no path contains a single quote, the quoted, comma-separated file list in the header parses back to exactly the configured files, in order; the source does not escape quotes, so other paths do not round-trip |
| Header.HeaderLines | index.js:55-60 | the header splits into five lines: the generated-on line with the stamp, a blank line, the loader call listing the files, a blank line, and an empty last line; so the first file's marker is line 5 |
| Header.ManifestHasNoBreaks | index.js:59 | the quoted file list has no line break when no path has one |
| LineBreaks.SplitLines | index.js:85 | the split always yields at least one piece; the empty text yields one empty piece |
| LineBreaks.Breaks | index.js:85 | every break matched is `\r\n` or a single break character, and there are no more breaks than characters |
| LineBreaks.SplitLinesRoundTrip | index.js:85 | the pieces of the break-pattern split, interleaved with the breaks matched, give back the contents; the number of pieces is one more than the number of breaks |
| LineBreaks.SplitLinesHaveNoBreaks | index.js:85 | no piece of the split contains a break character |
| LineBreaks.SingleLine | index.js:85 | text without a break splits into itself alone |
| LineBreaks.SplitAppend | index.js:85 | splitting a concatenation glues the two splits at the seam, unless a `\r` at the end of the first part meets a `\n` at the start of the second |
| LineBreaks.AppendAfterBreak | index.js:85 | after text that ends on a completed line, the lines of the appended text follow unchanged |
| Fusion.LinesInFile | index.js:79-85 | `linesInFile` is one plus the number of breaks the pattern matches, each a `\r\n` or a single break character (that `\r\n` is matched as one break is `Fusion.CrLfCountsOnce`) |
| Fusion.CrLfCountsOnce | index.js:85 | `\r\n` is one break: after text that does not end in a lone `\r`, writing `\r\n` or `\n` gives the same lines and the same `linesInFile` |
| Fusion.FileMappings | index.js:88-94 | a file's records number `linesInFile + 1`; record i is (lineNo + i, column 1) to (line i + 1, column 1) of that file |
| Fusion.MarkerReadsBack | index.js:78 | the path can be read back from its marker, and the marker ends in a line feed |
| Fusion.SectionReadsBack | index.js:78-95 | a file's section is its marker, then its contents unchanged, then the separator |
| Fusion.FuseFiles | index.js:74-98 | the file tasks after the header: a build that fails names a configured file that cannot be read; the rest is stated by the lemmas below |
| Fusion.FuseFilesRecordsPerFile | index.js:74-98 | a build that does not fail has at least two records per file, since every file has at least one line |
| Fusion.FuseFilesFailure | index.js:78-81 | the build fails exactly when some file cannot be read, and it reports the first such file |
| Fusion.FuseFilesOutput | index.js:74-98 | the text written by the file tasks is the sections of the readable prefix, in configured order, followed by the failing file's marker if there is one |
| Fusion.FuseFilesRecordCount | index.js:88-94 | there are `linesInFile + 1` records for each file of the readable prefix, and none for the other files |
| Fusion.FuseShape | index.js:62-111 | the combined file is the header plus the sections of the files read, plus the failing file's marker if any; the failure names the first unreadable file; the number of records is as above |
| Fusion.ReadablePrefix | index.js:78-81 | how many leading files can be read: all files before it are readable, and the one at it is not |
| Fusion.RecordsAreWellFormed | index.js:88-94 | every record names a configured, readable file; both columns are 1; its generated line is at or after the starting cursor; its original line is between 1 and `linesInFile + 1` |
| Fusion.FileMappingsIncrease | index.js:88-94 | one file's records have strictly increasing generated lines within lineNo .. lineNo + linesInFile |
| Fusion.CursorAfter | index.js:96 | the cursor after the file tasks never lies before the cursor they started from |
| Fusion.GeneratedLinesIncrease | index.js:73-96 | across the whole build, generated lines strictly increase and lie between the starting cursor and the final one |
| Alignment.HeaderEndsOnFinishedLine | index.js:55-60 | the header leaves line 5 open and empty: the first marker is written on line 5 and the first contents start on line 6, the cursor's starting value |
| Alignment.AppendSection | index.js:86-95 | after text ending in a line break, a section fills the open line with its marker, then adds the file's own lines and two more lines |
| Alignment.SectionHoldsSource | index.js:79-96 | the file's lines sit in the combined file from the line after its marker onwards |
| Alignment.RecordsPointAtTheirLines | index.js:77-98 | starting with line lineNo - 1 open for the first marker, every record of the remaining files points at a combined-file line that equals the source line it names; an original line one past the end points at the blank separator line |
| Alignment.ArtifactLinesMatchSources | index.js:62-111 | every record of a build, complete or stopped by a read error, points at the combined-file line that holds the source line it names |
| Alignment.LoneCarriageReturnShiftsMap | index.js:85-96 | when a file ends in a lone `\r`, the `\r` and the separator's first `\n` form one break in the combined file; the next file's first record then points one line below its text |
| Alignment.LoneCarriageReturnBeforeFailure | index.js:78-96 | when a file ending in a lone `\r` is followed by a file that cannot be read, the build fails on the second file, and the first file's record for the line past its end names the line that holds the failing file's marker, so the map is wrong |
| Staleness.CheckIfUpToDate | index.js:113-127 | a missing combined file is not up to date; otherwise it is up to date exactly when the change query returns no changes; a failed query is an error |
| Staleness.ChangesSince | index.js:123 | the changes since t are exactly the recorded changes later than t |
| Staleness.UpToDateIffUnchangedSince | index.js:113-127 | up to date exactly when the combined file exists and no watched file changed after the last build time |
| WatcherLifecycle.EnsureStep | index.js:141-156 | ensureFileWatcher replies with the watcher exactly when one is stored; it issues a start exactly when there is no watcher and no start in flight, and then arms the sentinel; otherwise the fields are unchanged |
| WatcherLifecycle.Step | index.js:141-164 | one event never drops a stored watcher; the watcher changes only by a start result while a start is in flight; a start begins only through a reply that issues one |
| WatcherLifecycle.Run | index.js:141-164 | a sequence of events yields one reply per event |
| WatcherLifecycle.StepKeepsAccount | index.js:141-164 | every event keeps the fields consistent (a start in flight has no watcher and a sentinel set) and keeps the counts balanced: starts issued equal errors and timeouts reported, plus one if a start is in flight, plus one if a watcher is stored; an ending counted may belong to a different start |
| WatcherLifecycle.RunKeepsAccount | index.js:141-164 | the same holds over any sequence of events |
| WatcherLifecycle.StartsBoundedByFailures | index.js:144-163 | from the initial state, the starts issued are at most one more than the starts that failed or timed out |
| WatcherLifecycle.WatcherIsKept | index.js:143 | once a watcher is stored, every later request returns it and no further start is issued |
| WatcherLifecycle.NoSecondStart | index.js:144-147 | while a start is in flight, a request only polls |
| WatcherLifecycle.LateEventsAllIgnored | index.js:150-158 | with no start in flight, any run of start results and sentinel firings leaves the state as it was and every reply is ignored |
| WatcherLifecycle.TimeoutThenLateResult | index.js:150-158 | after the timeout, the start result that comes late is ignored and no watcher is stored |
| WatcherLifecycle.ResultThenLateTimeout | index.js:150-162 | after a successful start, the sentinel that fires later reports nothing |
| WatcherLifecycle.StaleSentinelEndsRetry | index.js:148-160 | after a start error and a retry, the first start's sentinel ends the retry with a timeout, and the retry's own result is then ignored |
| WatcherLifecycle.StaleResultEndsRetry | index.js:148-163 | after a timeout and a retry, the first start's late result is stored as the watcher |
| WatcherLifecycle.ErrorThenRetry | index.js:148-160 | a start error leaves no watcher, so the next request issues a new start |
| WatcherLifecycle.CloseOutcomes | index.js:196-205 | close changes nothing when there is no watcher and no start in flight; with a watcher it closes that watcher |
| Requests.WriteFiles | index.js:62-111 | a build keeps the watcher fields, sets the build time and counts one write; a read error names a configured file that cannot be read |
| Requests.Request | index.js:169-182 | a request changes the watcher fields only as ensureFileWatcher does; it waits exactly when no watcher is stored; it writes at most once and then sets the build time; a read error always comes from a build |
| Requests.RebuildIffStale | index.js:169-177 | a request rebuilds exactly when the watcher is ready and the combined file is not up to date; the rebuild stamps the build time and replaces both outputs; otherwise build time and outputs are untouched |
| Requests.RequestOutcome | index.js:169-182 | the request waits exactly when no watcher is stored; a failed check or read reaches the caller; it is served exactly when the file was up to date or the rebuild read every file |
| Requests.FailedBuildIsServedNext | index.js:62-127 | after a build that failed on a file, a request that sees no changes serves the partial combined file without rebuilding |
| FileFuserEngine.FileFuser.EnsureFileWatcher | index.js:141-156 | returns the stored watcher, polls while a start is in flight, or issues one start and sets the sentinel, exactly as the state machine's request step |
| FileFuserEngine.FileFuser.OnStartResult | index.js:157-163 | the start callback is ignored when no start is in flight; otherwise it ends the start and stores the watcher or reports the error |
| FileFuserEngine.FileFuser.OnStartSentinel | index.js:150-155 | the sentinel is ignored when no start is in flight; otherwise it ends the start with the timeout error naming the base directory |
| FileFuserEngine.FileFuser.Close | index.js:196-205 | closing, exactly as the state machine's close step |
| FileFuserEngine.FileFuser.CheckIfCombinedFilesAreUpToDate | index.js:113-127 | the decision equals the staleness function; the change query is made only when the combined file exists, and it asks about the stored build time |
| FileFuserEngine.FileFuser.WriteFilesInto | index.js:62-111 | sets the build time, then writes the combined text and records of the build specification and reports its read error; the watcher fields are untouched |
| FileFuserEngine.RunTasks | index.js:71-109 | the series of header and file tasks produces exactly the build specification's text, records and error |
| FileFuserEngine.FileTask | index.js:77-98 | one file's task: the marker, then either the read error alone or the contents, `linesInFile + 1` records appended by the counting loop, the separator and the advanced cursor |
| FileFuserEngine.FileFuser.WithCombinedFileStreamDo | index.js:169-182 | the new state and the outcome are those of the request transition |

## Left out

- File system I/O is replaced by inputs: streams, `fs.exists`, and opening the combined and position-map files for reading (`getCombinedFileStream`, `getSourceMapFileStream`, with their double callback on an exception). Contents and existence are inputs; what is written is kept as the fields `combined` and `sourceMap`.
- The position-map file is kept as the list of records passed to the source-map generator; the generator's serialisation and `sourceRoot` handling belong to a library that is not part of this model.
- The watch service (`watch-interface`) and its change query are not modelled; their results are inputs, as events and as `answer`.
- Timer durations (the 200 ms poll and the 2 s sentinel) are left out; a timer firing is an event.
- When the watcher is not ready, `FileFuserEngine.FileFuser.WithCombinedFileStreamDo` returns a `Waiting` outcome; the retry that the event loop would deliver later is a new request.
- `computeHash` (MD5), `withHashDo` and `withSourceMapStreamDo` are left out; they are a foreign hash call and stream plumbing.
- Date formatting (`toGMTString`) is left out; the printed stamp is a parameter.
- Logging and the module-export wrapper are left out.
- Line counting is done over a file's whole contents. When a `\r\n` falls across two stream chunks, the source counts it twice; the model does not capture that.
- Interleaving of overlapping requests during a rebuild is left out; the code has no lock for it.
- Alignment.ArtifactLinesMatchSources: is proved when no readable file ends in a lone `\r` and when the stamp and the paths contain no line breaks. A lone `\r` at the end of a readable file and the separator's first `\n` form one break, so that file's last record, the one for the line past its end, lands on the next open line. That file's last record is therefore wrong whenever anything is written after its section, including the marker of a file that fails to read (`Alignment.LoneCarriageReturnBeforeFailure`). When the next file is readable, every later record also runs one line ahead (`Alignment.LoneCarriageReturnShiftsMap`). Only at the end of a complete build does such a `\r` shift nothing. Both counterexamples are built on the file tasks alone, starting from an empty output at cursor 2, not on a `Fuse` build with its header.
- Read failures are all-or-nothing: a file is either on the disk map or not. In the source, a reader that errors after some `data` events has already written those chunks (`index.js:86`) and counted their breaks, then stops without the separator or records (`index.js:81`, `index.js:87-97`); `Fusion.FuseShape` says such a build ends with the marker alone. Contents are also modelled as decoded text, while the source writes the raw bytes (`index.js:86`) but counts breaks on their UTF-8 decoding (`index.js:85`), so for a file that is not valid UTF-8 the written bytes and the counted lines can disagree.
- Missing or malformed option fields are not modelled; the options are a record whose fields are always present.
- Start results and sentinel firings carry no identity, because the source tests only the shared `_fileWatcherIsStarting` flag (`index.js:151`, `index.js:158`). After a failed or timed-out start and a retry, an event of the first start can end the retry: `WatcherLifecycle.StaleSentinelEndsRetry` and `WatcherLifecycle.StaleResultEndsRetry` show it. In the source, the first requester's callback is then called twice and the retrier's never. `Reply` does not name the callback it goes to, so the model cannot show which caller is answered. A timeout that fires after the start finished reports nothing after a success, always (`WatcherLifecycle.ResultThenLateTimeout`), and after an error, unless a retry is in flight (`WatcherLifecycle.LateEventsAllIgnored`, `WatcherLifecycle.StaleSentinelEndsRetry`).
- Alignment.ArtifactLinesMatchSources: is stated for the fuser's notion of a line, which ends at U+0085 too. JavaScript ends lines only at LF, CR, CRLF, U+2028 and U+2029, so a JavaScript consumer of the position map would place lines wrongly in files that contain U+0085; the model does not capture that.
- Header.ManifestRoundTrip: holds only for paths without a single quote; the header quotes paths without escaping.
