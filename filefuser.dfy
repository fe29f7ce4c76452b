/**
  The FileFuser object: its configuration, the watcher fields that
  ensureFileWatcher and close update in place, the build time, and what the
  last build wrote. Each method is proved against the functions of
  WatcherLifecycle, Staleness, Fusion and Requests.
 */
module FileFuserEngine {
  import opened Common
  import opened LineBreaks
  import opened Header
  import opened Fusion
  import opened Staleness
  import opened WatcherLifecycle
  import opened Requests

  /** The constructor's options object. */
  datatype Options = Options(baseDirectory: Path, files: seq<Path>, combinedFile: Path, sourceRoot: Option<string>)

  /** The side file that holds the position map is named after the combined file. */
  function SourceMapFileName(combinedFile: Path): (name: Path)
    ensures |name| == |combinedFile| + 4 && name[..|combinedFile|] == combinedFile
  {
    combinedFile + ".jsm"
  }

  class FileFuser {
    const baseDirectory: Path
    const files: seq<Path>
    const combinedFile: Path
    const sourceMapFile: Path
    const sourceRoot: Option<string>

    var fileWatcher: Option<Handle>
    var fileWatcherIsStarting: bool
    var startSentinel: bool
    var combinedFileBuildTime: Option<int>

    /** What the last build wrote to the combined file and, as addMapping calls, to the side file. */
    var combined: Option<string>
    var sourceMap: Option<seq<Mapping>>

    /** Starts issued to the watcher service, starts that ended in an error or a timeout, and builds run. */
    ghost var startCalls: nat
    ghost var startErrors: nat
    ghost var writes: nat

    function Settings(): Config {
      Config(baseDirectory, files, combinedFile, sourceMapFile, sourceRoot)
    }

    function Watcher(): WatcherState
      reads this
    {
      WatcherState(fileWatcher, fileWatcherIsStarting, startSentinel)
    }

    ghost function State(): FuserState
      reads this
    {
      FuserState(Watcher(), combinedFileBuildTime, combined, sourceMap, writes)
    }

    /** The watcher fields agree with each other and every start issued is accounted for. */
    ghost predicate Valid()
      reads this
    {
      Consistent(Watcher()) && StartsAccounted(Watcher(), startCalls, startErrors)
    }

    constructor(options: Options)
      ensures Settings() == Config(options.baseDirectory, options.files, options.combinedFile,
                                   SourceMapFileName(options.combinedFile), options.sourceRoot)
      ensures Watcher() == Initial && combinedFileBuildTime.None?
      ensures combined.None? && sourceMap.None? && writes == 0 && startCalls == 0 && startErrors == 0
      ensures Valid()
    {
      baseDirectory := options.baseDirectory;
      files := options.files;
      combinedFile := options.combinedFile;
      fileWatcher := None;
      fileWatcherIsStarting := false;
      startSentinel := false;
      combinedFileBuildTime := None;
      sourceMapFile := SourceMapFileName(options.combinedFile);
      sourceRoot := options.sourceRoot;
      combined := None;
      sourceMap := None;
      writes := 0;
      startCalls := 0;
      startErrors := 0;
    }

    /** ensureFileWatcher, up to the point where it returns or hands over to the start. */
    method EnsureFileWatcher() returns (reply: Reply)
      requires Valid()
      modifies this
      ensures (Watcher(), reply) == EnsureStep(old(Watcher()))
      ensures startCalls == old(startCalls) + (if reply == StartIssued then 1 else 0) && startErrors == old(startErrors)
      ensures combinedFileBuildTime == old(combinedFileBuildTime) && combined == old(combined)
      ensures sourceMap == old(sourceMap) && writes == old(writes)
      ensures Valid()
    {
      if fileWatcher.Some? {
        return Ready(fileWatcher.value);
      }
      if fileWatcherIsStarting {
        return Poll;
      }
      fileWatcherIsStarting := true;
      startSentinel := true;
      startCalls := startCalls + 1;
      reply := StartIssued;
    }

    /** The watcher service's start callback, with its error or its watcher. */
    method OnStartResult(err: Option<string>, watcher: Handle) returns (reply: Reply)
      requires Valid()
      modifies this
      ensures (Watcher(), reply)
           == Step(baseDirectory, old(Watcher()), if err.Some? then StartErred(err.value) else StartSucceeded(watcher))
      ensures startCalls == old(startCalls) && startErrors == old(startErrors) + (if reply.StartError? then 1 else 0)
      ensures combinedFileBuildTime == old(combinedFileBuildTime) && combined == old(combined)
      ensures sourceMap == old(sourceMap) && writes == old(writes)
      ensures Valid()
    {
      if !fileWatcherIsStarting {
        return Ignored;
      }
      fileWatcherIsStarting := false;
      if err.Some? {
        startErrors := startErrors + 1;
        return StartError(StartFailed(err.value));
      }
      fileWatcher := Some(watcher);
      reply := Started(watcher);
    }

    /** The start sentinel's timer. */
    method OnStartSentinel() returns (reply: Reply)
      requires Valid()
      modifies this
      ensures (Watcher(), reply) == Step(baseDirectory, old(Watcher()), SentinelFires)
      ensures startCalls == old(startCalls) && startErrors == old(startErrors) + (if reply.StartError? then 1 else 0)
      ensures combinedFileBuildTime == old(combinedFileBuildTime) && combined == old(combined)
      ensures sourceMap == old(sourceMap) && writes == old(writes)
      ensures Valid()
    {
      if !fileWatcherIsStarting {
        return Ignored;
      }
      fileWatcherIsStarting := false;
      startSentinel := false;
      startErrors := startErrors + 1;
      reply := StartError(StartTimedOut(TimeoutMessage(baseDirectory)));
    }

    /** close: nothing to do without a watcher or a start; otherwise through ensureFileWatcher. */
    method Close() returns (reply: Reply)
      requires Valid()
      modifies this
      ensures (Watcher(), reply) == Step(baseDirectory, old(Watcher()), Event.Close)
      ensures startCalls == old(startCalls) && startErrors == old(startErrors)
      ensures combinedFileBuildTime == old(combinedFileBuildTime) && combined == old(combined)
      ensures sourceMap == old(sourceMap) && writes == old(writes)
      ensures Valid()
    {
      if fileWatcher.None? && !fileWatcherIsStarting {
        return CloseDone;
      }
      var ensured := EnsureFileWatcher();
      if ensured.Ready? {
        reply := Closing(ensured.watcher);
      } else {
        reply := CloseWaiting;
      }
    }

    /**
      checkIfCombinedFilesAreUpToDate. queried is the change query made: none
      when the combined file is missing, otherwise the one for the last build
      time; answer is the watcher's reply to it.
     */
    method CheckIfCombinedFilesAreUpToDate(fileExists: bool, answer: ChangeAnswer)
      returns (r: Result<bool>, queried: Option<Option<int>>)
      ensures r == CheckIfUpToDate(fileExists, answer)
      ensures queried == (if fileExists then Some(combinedFileBuildTime) else None)
    {
      var lastBuildTime := combinedFileBuildTime;
      if !fileExists {
        return Ok(false), None;
      }
      queried := Some(lastBuildTime);
      match answer {
        case QueryFailed(message) =>
          r := Err(ChangeQueryFailed(message));
        case Changes(changes) =>
          r := Ok(|changes| == 0);
      }
    }

    /**
      writeFilesInto: stamps the build time before anything is written, then
      runs the header task and one task per file in order, appending each
      readable file's records with a counting loop and advancing the line
      cursor; the first unreadable file ends the build with its error.
     */
    method WriteFilesInto(disk: Disk, now: int, stamp: string) returns (err: Option<FuserError>)
      requires Valid()
      modifies this
      ensures (State(), err) == WriteFiles(Settings(), old(State()), disk, now, stamp)
      ensures startCalls == old(startCalls) && startErrors == old(startErrors)
      ensures Valid()
    {
      combinedFileBuildTime := Some(now);
      var output, mappings;
      output, mappings, err := RunTasks(stamp, files, disk);
      combined := Some(output);
      sourceMap := Some(mappings);
      writes := writes + 1;
    }

    /** withCombinedFileStreamDo: ensure the watcher, check, rebuild only when stale. */
    method WithCombinedFileStreamDo(fileExists: bool, answer: ChangeAnswer, disk: Disk, now: int, stamp: string)
      returns (outcome: Outcome)
      requires Valid()
      modifies this
      ensures (State(), outcome) == Request(Settings(), old(State()), fileExists, answer, disk, now, stamp)
      ensures Valid()
    {
      var reply := EnsureFileWatcher();
      if !reply.Ready? {
        return Waiting(reply);
      }
      var check, _ := CheckIfCombinedFilesAreUpToDate(fileExists, answer);
      match check {
        case Err(e) =>
          outcome := Failed(e);
        case Ok(upToDate) =>
          if upToDate {
            outcome := Served;
          } else {
            var err := WriteFilesInto(disk, now, stamp);
            outcome := if err.Some? then Failed(err.value) else Served;
          }
      }
    }
  }

  /**
    The series of tasks: the header, then one task per file in order; the
    series stops at the first task that reports an error.
   */
  method RunTasks(stamp: string, files: seq<Path>, disk: Disk) returns (output: string, mappings: seq<Mapping>, err: Option<FuserError>)
    ensures var b := Fuse(stamp, files, disk);
            && output == b.output && mappings == b.mappings
            && err == (if b.failed.Some? then Some(ReadFailed(b.failed.value)) else None)
  {
    ghost var target := Fuse(stamp, files, disk);
    output := CreateHeader(stamp, files);
    mappings := [];
    var lineNo := FirstContentLine;
    var i := 0;
    err := None;
    assert files[i..] == files;
    while i < |files| && err.None?
      invariant 0 <= i <= |files|
      invariant err.None? ==> target == Continue(output, mappings, FuseFiles(files[i..], disk, lineNo))
      invariant err.Some? ==> err.value.ReadFailed? && target == Build(output, mappings, Some(err.value.path))
      decreases |files| - i
    {
      var file := files[i];
      ghost var output0, mappings0 := output, mappings;
      var nextLineNo;
      output, mappings, nextLineNo, err := FileTask(file, disk, lineNo, output, mappings);
      if err.Some? {
        UnreadableTask(files, disk, i, lineNo, output0, mappings0, target);
      } else {
        ReadableTask(files, disk, i, lineNo, output0, mappings0, target);
      }
      lineNo := nextLineNo;
      i := i + 1;
    }
    if err.None? {
      assert files[i..] == [];
      assert output + "" == output && mappings + [] == mappings;
    }
  }

  /**
    The task for one file: its marker, then its contents and, once the
    contents are through, one record per line counted plus one, the
    separator and the advanced line cursor; a file that cannot be read stops
    after its marker with the read error.
   */
  method FileTask(file: Path, disk: Disk, lineNo: int, output: string, mappings: seq<Mapping>)
    returns (output': string, mappings': seq<Mapping>, lineNo': int, err: Option<FuserError>)
    ensures file !in disk ==> output' == output + Marker(file) && mappings' == mappings && err == Some(ReadFailed(file))
    ensures file in disk ==>
              var n := LinesInFile(disk[file]);
              && output' == output + Section(file, disk[file])
              && mappings' == mappings + FileMappings(file, n, lineNo)
              && lineNo' == lineNo + n + 2
              && err.None?
  {
    output' := output + Marker(file);
    mappings' := mappings;
    lineNo' := lineNo;
    if file !in disk {
      return output', mappings', lineNo', Some(ReadFailed(file));
    }
    var data := disk[file];
    var linesInFile := 1;
    linesInFile := linesInFile + |SplitLines(data)| - 1;
    output' := output' + data;
    ghost var own := FileMappings(file, linesInFile, lineNo);
    for i := 0 to linesInFile + 1
      invariant mappings' == mappings + own[..i]
    {
      mappings' := mappings' + [Mapping(lineNo + i, 1, i + 1, 1, file)];
      assert own[..i + 1] == own[..i] + [own[i]];
    }
    assert own[..linesInFile + 1] == own;
    output' := output' + Separator;
    lineNo' := lineNo + linesInFile + 2;
    err := None;
  }

  /** new FileFuser(options): a missing options object is refused. */
  method NewFileFuser(options: Option<Options>) returns (fuser: Option<FileFuser>)
    ensures fuser.None? <==> options.None?
    ensures fuser.Some? ==> fresh(fuser.value) && fuser.value.Valid() && fuser.value.Watcher() == Initial
    ensures fuser.Some? ==> fuser.value.Settings() == Config(options.value.baseDirectory, options.value.files,
                                                              options.value.combinedFile,
                                                              SourceMapFileName(options.value.combinedFile),
                                                              options.value.sourceRoot)
    ensures fuser.Some? ==> fuser.value.combinedFileBuildTime.None? && fuser.value.combined.None?
    ensures fuser.Some? ==> fuser.value.sourceMap.None? && fuser.value.writes == 0
  {
    if options.None? {
      return None;
    }
    var f := new FileFuser(options.value);
    fuser := Some(f);
  }

  /** What the build has written so far, followed by what the remaining tasks will write. */
  function Continue(output: string, mappings: seq<Mapping>, rest: Build): Build {
    Build(output + rest.output, mappings + rest.mappings, rest.failed)
  }

  /** The task for a readable files[i] writes its section and records and leaves the later tasks. */
  lemma ReadableTask(files: seq<Path>, disk: Disk, i: nat, lineNo: int, output: string, mappings: seq<Mapping>, target: Build)
    requires i < |files| && files[i] in disk
    requires target == Continue(output, mappings, FuseFiles(files[i..], disk, lineNo))
    ensures var c := disk[files[i]];
            var n := LinesInFile(c);
            target == Continue(output + Section(files[i], c), mappings + FileMappings(files[i], n, lineNo),
                               FuseFiles(files[i + 1..], disk, lineNo + n + 2))
  {
    var c := disk[files[i]];
    var n := LinesInFile(c);
    var rest := FuseFiles(files[i + 1..], disk, lineNo + n + 2);
    assert FuseFiles(files[i..], disk, lineNo)
        == Build(Section(files[i], c) + rest.output, FileMappings(files[i], n, lineNo) + rest.mappings, rest.failed) by {
      FuseFilesStep(files[i..], disk, lineNo);
      assert files[i..][1..] == files[i + 1..];
    }
    assert output + (Section(files[i], c) + rest.output) == (output + Section(files[i], c)) + rest.output;
    assert mappings + (FileMappings(files[i], n, lineNo) + rest.mappings)
        == (mappings + FileMappings(files[i], n, lineNo)) + rest.mappings;
  }

  /** The task for an unreadable files[i] writes only its marker and ends the build with that path. */
  lemma UnreadableTask(files: seq<Path>, disk: Disk, i: nat, lineNo: int, output: string, mappings: seq<Mapping>, target: Build)
    requires i < |files| && files[i] !in disk
    requires target == Continue(output, mappings, FuseFiles(files[i..], disk, lineNo))
    ensures target == Build(output + Marker(files[i]), mappings, Some(files[i]))
  {
    FuseFilesStopsAt(files[i..], disk, lineNo);
    assert mappings + [] == mappings;
  }
}
