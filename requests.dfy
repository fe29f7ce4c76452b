/**
  withCombinedFileStreamDo as a function of the fuser's state: ensure the
  watcher, ask whether the combined file is up to date, and rebuild only
  when it is not.
 */
module Requests {
  import opened Common
  import opened Header
  import opened Fusion
  import opened Staleness
  import opened WatcherLifecycle

  /** What a fuser is configured with; sourceMapFile is combinedFile + ".jsm". */
  datatype Config = Config(baseDirectory: Path, files: seq<Path>, combinedFile: Path, sourceMapFile: Path, sourceRoot: Option<string>)

  /**
    The state a request reads and writes: the watcher life cycle, the build
    time, what the last build wrote to the combined file and to the
    position-map side file, and how many builds have run.
   */
  datatype FuserState = FuserState(
    watcher: WatcherState,
    buildTime: Option<int>,
    combined: Option<string>,
    sourceMap: Option<seq<Mapping>>,
    writes: nat)

  /** How a request ends: the combined file is streamed, it waits for the watcher, or an error reaches the caller. */
  datatype Outcome = Served | Waiting(reply: Reply) | Failed(error: FuserError)

  /** writeFilesInto: the build time first, then the combined file and its records; a read error is returned. */
  function WriteFiles(cfg: Config, st: FuserState, disk: Disk, now: int, stamp: string): (r: (FuserState, Option<FuserError>))
    ensures r.0.watcher == st.watcher && r.0.buildTime == Some(now) && r.0.writes == st.writes + 1
    ensures r.1.Some? ==> r.1.value.ReadFailed? && r.1.value.path in cfg.files && r.1.value.path !in disk
  {
    var b := Fuse(stamp, cfg.files, disk);
    (st.(buildTime := Some(now), combined := Some(b.output), sourceMap := Some(b.mappings), writes := st.writes + 1),
     if b.failed.Some? then Some(ReadFailed(b.failed.value)) else None)
  }

  /**
    One request. fileExists and answer are what the file system and the
    watcher's change query report; disk, now and stamp are what a build
    would read and the time it starts at.
   */
  function Request(cfg: Config, st: FuserState, fileExists: bool, answer: ChangeAnswer, disk: Disk, now: int, stamp: string): (r: (FuserState, Outcome))
    ensures r.0.watcher == EnsureStep(st.watcher).0
    ensures r.1.Waiting? <==> st.watcher.fileWatcher.None?
    ensures r.0.writes != st.writes ==> r.0.writes == st.writes + 1 && r.0.buildTime == Some(now)
    ensures r.1.Failed? && r.1.error.ReadFailed? ==> r.0.writes == st.writes + 1 && r.1.error.path in cfg.files
  {
    var (w, reply) := EnsureStep(st.watcher);
    var st1 := st.(watcher := w);
    if !reply.Ready? then (st1, Waiting(reply))
    else match CheckIfUpToDate(fileExists, answer)
      case Err(e) => (st1, Failed(e))
      case Ok(upToDate) =>
        if upToDate then (st1, Served)
        else
          var (st2, err) := WriteFiles(cfg, st1, disk, now, stamp);
          (st2, if err.Some? then Failed(err.value) else Served)
  }

  /**
    A build runs exactly when the watcher is ready and the combined file is
    not up to date; it stamps the build time and replaces both outputs with
    the fused files. Otherwise the build time and the outputs are untouched.
   */
  lemma RebuildIffStale(cfg: Config, st: FuserState, fileExists: bool, answer: ChangeAnswer, disk: Disk, now: int, stamp: string)
    ensures var (st', _) := Request(cfg, st, fileExists, answer, disk, now, stamp);
            var stale := st.watcher.fileWatcher.Some? && CheckIfUpToDate(fileExists, answer) == Ok(false);
            var b := Fuse(stamp, cfg.files, disk);
            && st'.writes == st.writes + (if stale then 1 else 0)
            && (stale ==> st'.buildTime == Some(now) && st'.combined == Some(b.output) && st'.sourceMap == Some(b.mappings))
            && (!stale ==> st'.buildTime == st.buildTime && st'.combined == st.combined && st'.sourceMap == st.sourceMap)
  {
  }

  /**
    The outcome: waiting while the watcher is not ready; the change query's
    error; the first unreadable file's error after a build; and otherwise the
    combined file is streamed.
   */
  lemma RequestOutcome(cfg: Config, st: FuserState, fileExists: bool, answer: ChangeAnswer, disk: Disk, now: int, stamp: string)
    ensures var (st', out) := Request(cfg, st, fileExists, answer, disk, now, stamp);
            var check := CheckIfUpToDate(fileExists, answer);
            var b := Fuse(stamp, cfg.files, disk);
            && (out.Waiting? <==> st.watcher.fileWatcher.None?)
            && (st.watcher.fileWatcher.Some? && check.Err? ==> out == Failed(check.error))
            && (st.watcher.fileWatcher.Some? && check == Ok(false) && b.failed.Some? ==> out == Failed(ReadFailed(b.failed.value)))
            && (out == Served <==> st.watcher.fileWatcher.Some? && (check == Ok(true) || (check == Ok(false) && b.failed.None?)))
  {
  }

  /**
    A build stopped by an unreadable file leaves its partial combined file
    and the new build time behind; if the watcher then reports no change
    since that time, the next request streams the partial file without
    rebuilding.
   */
  lemma FailedBuildIsServedNext(cfg: Config, st: FuserState, answer: ChangeAnswer, disk: Disk, now: int, stamp: string, now2: int)
    requires st.watcher.fileWatcher.Some?
    requires CheckIfUpToDate(true, answer) == Ok(false)
    requires ReadablePrefix(cfg.files, disk) < |cfg.files|
    ensures var (st1, out1) := Request(cfg, st, true, answer, disk, now, stamp);
            var (st2, out2) := Request(cfg, st1, true, Changes([]), disk, now2, stamp);
            var k := ReadablePrefix(cfg.files, disk);
            && out1 == Failed(ReadFailed(cfg.files[k]))
            && st1.buildTime == Some(now)
            && out2 == Served && st2.writes == st1.writes
            && st2.combined == Some(CreateHeader(stamp, cfg.files) + Sections(cfg.files[..k], disk) + Marker(cfg.files[k]))
  {
    FuseShape(stamp, cfg.files, disk);
  }
}
