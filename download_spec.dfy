/**
 * `Downloader.download` as a function from the state before the call (the
 * downloader's fields, its in-memory log, the ledger and the files) and the
 * environment to the state after it, the outcome and the observed trace.
 * Each function below is one stage of the Java method, in source order.
 */
module DownloadSpec {
  import opened Wrappers
  import opened Text
  import opened Files
  import opened DownloadLogs
  import opened DownloadDb
  import opened DownloadTypes
  import opened FileNames
  import opened ChunkLoop

  /** `RESPONSE_OK`: the only status the metadata request accepts. */
  const ResponseOk := 200

  /** The mutable fields of a `Downloader` other than its log. */
  datatype Fields = Fields(
    stop: bool,                 // mStop
    finished: bool,             // mFinished
    fileSize: int,              // mFileSize
    saveFolder: Option<string>, // mSaveFolder, as a path
    fileName: Option<string>,   // mFileName
    savedFile: Option<string>)  // mSavedFile, as a path

  /** Everything `download` can change. */
  datatype World = World(fields: Fields, log: Option<LogView>, table: Table, files: map<string, seq<byte>>)

  /** The state after a call, what it returned or threw, and what it sent out. */
  datatype Run = Run(world: World, outcome: Outcome, trace: seq<Event>)

  /** The in-memory log, when there is one, belongs to the downloader's url. */
  predicate LogOf(url: string, w: World) {
    w.log.Some? ==> w.log.value.url == Some(url)
  }

  function Unlocked(log: Option<LogView>): Option<LogView> {
    if log.None? then None else Some(log.value.(locked := false))
  }

  /** The state after `stop()`: the flag set and the log unlocked. */
  function Stopped(w: World): World {
    w.(fields := w.fields.(stop := true), log := Unlocked(w.log))
  }

  /** `new File(folder, name).getPath()`. */
  function JoinPath(folder: Option<string>, name: string): string {
    if folder.None? then name else folder.value + "/" + name
  }

  /** `new File(path).getParentFile()`, as a path. */
  function ParentPath(path: string): Option<string> {
    var k := LastIndexOf(path, '/');
    if k < 0 then None else Some(path[..k])
  }

  /** `new File(path).getName()`. */
  function BaseName(path: string): string {
    AfterLast(path, '/')
  }

  /** For a name without `/`, the parent and the name of a joined path are the folder and the name. */
  lemma JoinPathSplits(folder: Option<string>, name: string)
    requires '/' !in name
    ensures ParentPath(JoinPath(folder, name)) == folder && BaseName(JoinPath(folder, name)) == name
  {
    if folder.Some? {
      var x := folder.value;
      var p := x + "/" + name;
      LastIndexOfSplit(x, '/', name);
      assert p[..|x|] == x && p[|x| + 1..] == name;
    }
  }

  /**
   * A path has no parent exactly when it holds no `/`, and is then its own
   * name; otherwise it is its parent, `/` and its name. The name is a
   * suffix holding no `/`.
   */
  lemma PathSplits(path: string)
    ensures ParentPath(path).None? <==> '/' !in path
    ensures ParentPath(path).None? ==> BaseName(path) == path
    ensures ParentPath(path).Some? ==> path == ParentPath(path).value + "/" + BaseName(path)
    ensures '/' !in BaseName(path) && |BaseName(path)| <= |path|
    ensures path == path[..|path| - |BaseName(path)|] + BaseName(path)
  {
    AfterLastSplits(path, '/');
    var k := LastIndexOf(path, '/');
    if k < 0 {
      assert BaseName(path) == path[0..];
      forall i | 0 <= i < |path| ensures path[i] != '/' { }
    } else {
      ParentSplit(path, k);
    }
  }

  lemma ParentSplit(path: string, k: nat)
    requires k < |path| && path[k] == '/'
    ensures path == path[..k] + "/" + path[k + 1..]
  {
    assert path[..k] + "/" + path[k + 1..] == path[..k] + path[k..k + 1] + path[k + 1..];
    assert path[..k] + path[k..k + 1] == path[..k + 1];
  }

  /** A path is its parent joined with its name. */
  lemma PathRoundTrip(path: string)
    ensures JoinPath(ParentPath(path), BaseName(path)) == path
  {
    PathSplits(path);
  }

  /** The value of the `Range` request header. */
  function RangeHeader(startPos: int, endPos: int): string {
    "bytes=" + Decimal(startPos) + "-" + Decimal(endPos)
  }

  /** The log a fresh download creates. */
  function NewLog(url: string, totalSize: int, path: string): LogView {
    LogView(0, Some(url), 0, totalSize, Some(path), false)
  }

  /** `Downloader.download` (Downloader.java:108-127): the lock check, then (with resume enabled) the ledger lookup. */
  function DownloadRun(url: string, resume: bool, w: World, defaultSuffix: string, listener: bool, env: Env): Run
    requires LogOf(url, w)
  {
    if w.log.Some? && w.log.value.locked then Run(w, Returned(w.fields.savedFile), [])
    else
      var w1 := w.(fields := w.fields.(stop := false));
      if resume then
        var found := FirstWithUrl(w.table.rows, url);
        var w2 := w1.(log := if found.None? then None else Some(RowLog(found.value)));
        if found.Some? && found.value.downloadedSize == found.value.totalSize then PromoteRun(url, w2)
        else ProceedRun(url, resume, w2, defaultSuffix, listener, env)
      else ProceedRun(url, resume, w1, defaultSuffix, listener, env)
  }

  /** `Downloader.download` (Downloader.java:117-125): a complete ledger row is moved to history and its file returned. */
  function PromoteRun(url: string, w: World): Run
    requires w.log.Some?
  {
    var v := w.log.value;
    if v.savedFile.None? then Run(w, Failed(NullReference), [])
    else
      Run(World(w.fields.(savedFile := v.savedFile, finished := true, stop := true),
                Some(v.(locked := false)),
                WithHistory(Deleted(w.table, url), v),
                w.files),
          Returned(v.savedFile), [])
  }

  /** `Downloader.download` (Downloader.java:129-220): an earlier finished download, a fresh start, or a resume. */
  function ProceedRun(url: string, resume: bool, w: World, defaultSuffix: string, listener: bool, env: Env): Run
    requires LogOf(url, w)
  {
    if w.fields.finished then
      Run(w.(fields := w.fields.(stop := true), log := Unlocked(w.log)), Returned(w.fields.savedFile), [])
    else if w.log.None? then FreshRun(url, resume, w, defaultSuffix, listener, env)
    else ResumeRun(url, w, listener, env)
  }

  /** The saved-file name a fresh download uses: the explicit one, or the resolved one. */
  function ChosenName(url: string, fileName: Option<string>, headers: seq<Header>, defaultSuffix: string, freshName: string): Result<string, DownloadError> {
    if IsEmpty(fileName) then ResolveFileName(url, headers, defaultSuffix, freshName) else Ok(fileName.value)
  }

  /** `Downloader.download` (Downloader.java:141-214): the metadata request, the new log, and the file sized to the content length. */
  function FreshRun(url: string, resume: bool, w: World, defaultSuffix: string, listener: bool, env: Env): Run
    requires w.log.None?
  {
    match env.meta
    case Unreachable => Run(w, Failed(ConnectFailed), [MetadataRequested])
    case Meta(code, length, headers) =>
      if code != ResponseOk then Run(w, Failed(ServerError(code)), [MetadataRequested])
      else
        var f1 := w.fields.(fileSize := length);
        if length < 0 then Run(w.(fields := f1), Failed(SizeUnknown), [MetadataRequested])
        else
          var name := ChosenName(url, w.fields.fileName, headers, defaultSuffix, env.freshName);
          if name.Err? then Run(w.(fields := f1), Failed(name.error), [MetadataRequested])
          else FreshNamed(url, resume, w.(fields := f1), JoinPath(w.fields.saveFolder, name.value), length, listener, env)
  }

  /** `Downloader.download` (Downloader.java:159-172): the new log is recorded, and either finished at once or locked for the transfer. */
  function FreshNamed(url: string, resume: bool, w: World, path: string, length: nat, listener: bool, env: Env): Run {
    var v := NewLog(url, length, path);
    var f := w.fields.(savedFile := Some(path));
    var t1 := if resume then Saved(w.table, Some(v)) else w.table;
    if length == 0 then
      Run(World(f.(stop := true, finished := true), Some(v),
                WithHistory(if resume then Deleted(t1, url) else t1, v), w.files),
          Returned(Some(path)), [MetadataRequested])
    else
      TransferRun(url, Prepared(w, f, v, t1, path, length), listener, env, [MetadataRequested])
  }

  /** The state right before the transfer of a fresh download: log locked, file pre-sized. */
  function Prepared(w: World, f: Fields, v: LogView, t: Table, path: string, length: nat): World {
    World(f, Some(v.(locked := true)), t, w.files[path := Resized(ContentsOf(w.files, path), length)])
  }

  /** `Downloader.download` (Downloader.java:215-220): the resume path adopts the stored log's total size and saved file. */
  function ResumeRun(url: string, w: World, listener: bool, env: Env): Run
    requires w.log.Some? && LogOf(url, w)
  {
    var v := w.log.value;
    var f1 := w.fields.(fileSize := v.totalSize);
    if v.savedFile.None? then Run(w.(fields := f1), Failed(NullReference), [])
    else
      var path := v.savedFile.value;
      TransferRun(url, Resumed(w, path), listener, env, [])
  }

  function Resumed(w: World, path: string): World
    requires w.log.Some?
  {
    w.(fields := w.fields.(fileSize := w.log.value.totalSize, savedFile := Some(path),
                           saveFolder := ParentPath(path), fileName := Some(BaseName(path))))
  }

  /** The trace up to the ranged request: the optional first callback, then the request. */
  function Requested(trace0: seq<Event>, v: LogView, listener: bool): seq<Event> {
    trace0 + (if listener then [ProgressUpdated(v.downloadedSize, v.totalSize)] else [])
           + [RangeRequested(RangeHeader(v.downloadedSize, v.totalSize))]
  }

  /** `Downloader.download` (Downloader.java:222-308): the first callback, the ranged request and the chunk loop. */
  function TransferRun(url: string, w: World, listener: bool, env: Env, trace0: seq<Event>): Run
    requires w.log.Some? && w.fields.savedFile.Some?
  {
    var v := w.log.value;
    var trace1 := Requested(trace0, v, listener);
    match env.range
    case NoStream => Run(w.(log := Unlocked(w.log)), Failed(TransferFailed), trace1)
    case Stream(chunks, fails) =>
      var path := w.fields.savedFile.value;
      var file := ContentsOf(w.files, path);
      var files1 := w.files[path := file];
      if v.downloadedSize < 0 then
        Run(w.(log := Unlocked(w.log), files := files1), Failed(TransferFailed), trace1)
      else StreamRun(url, w.(files := files1), listener, chunks, fails, env.stopAt, trace1)
  }

  /** The loop's state after the chunks read before a stop, starting at the seek position. */
  function StreamSteps(url: string, w: World, listener: bool, chunks: seq<seq<byte>>, stopAt: Option<nat>, trace1: seq<Event>): Progress
    requires w.log.Some? && w.fields.savedFile.Some? && w.log.value.downloadedSize >= 0
  {
    var v := w.log.value;
    Steps(Progress(v.downloadedSize, v.downloadedSize, w.table.rows, ContentsOf(w.files, w.fields.savedFile.value), trace1),
          url, v.totalSize, listener, chunks[..ChunksRead(|chunks|, stopAt)])
  }

  /** `Downloader.download` (Downloader.java:264-281): the chunk loop from the seek position, until the end, a stop or a failure. */
  function StreamRun(url: string, w: World, listener: bool, chunks: seq<seq<byte>>, fails: bool, stopAt: Option<nat>, trace1: seq<Event>): Run
    requires w.log.Some? && w.fields.savedFile.Some? && w.log.value.downloadedSize >= 0
  {
    var v := w.log.value;
    var seen := StopSeen(|chunks|, stopAt);
    var p := StreamSteps(url, w, listener, chunks, stopAt, trace1);
    var done := World(w.fields.(stop := w.fields.stop || seen),
                      Some(v.(downloadedSize := p.downloadedSize, locked := false)),
                      w.table.(rows := p.rows),
                      w.files[w.fields.savedFile.value := p.file]);
    if fails && !seen then Run(done, Failed(TransferFailed), p.trace)
    else Run(done.(fields := done.fields.(finished := p.downloadedSize == v.totalSize)),
             Returned(w.fields.savedFile), p.trace)
  }
}
