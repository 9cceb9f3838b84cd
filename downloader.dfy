/**
 * The `Downloader` object: its fields, its two constructors, `download`,
 * `stop`, the getters and `getFileName`. Each step of `download` is a method
 * proved equal to the stage of `DownloadSpec` it implements.
 */
module Downloaders {
  import opened Wrappers
  import opened Text
  import opened Files
  import opened DownloadLogs
  import opened DownloadDb
  import opened DownloadTypes
  import opened FileNames
  import opened ChunkLoop
  import opened DownloadSpec

  /** The state the chunk loop starts from. */
  datatype LoopStart = LoopStart(log: LogView, files: map<string, seq<byte>>, table: Table, fields: Fields, progress: Progress)

  class Downloader {
    const url: string                  // mUrl
    const breakPointSupported: bool    // mBreakPointSupported
    const ledger: Ledger               // the database behind DownloadDBUtils
    const store: FileStore             // the file system
    var stop: bool
    var finished: bool
    var fileSize: int
    var saveFolder: Option<string>
    var fileName: Option<string>
    var savedFile: Option<string>
    var log: DownloadLog?              // mDownloadLog

    ghost predicate Valid()
      reads this, log, ledger
    {
      ledger.Valid() && (log != null ==> log.url == Some(url))
    }

    function Snapshot(): World
      reads this, log, ledger, store
    {
      World(Fields(stop, finished, fileSize, saveFolder, fileName, savedFile),
            if log == null then None else Some(log.View()),
            ledger.Tables(), store.files)
    }

    /** The four-argument constructor: resuming from the ledger is enabled. */
    constructor (ledger: Ledger, store: FileStore, downloadUrl: string, saveFolder: string, fileName: Option<string>)
      requires ledger.Valid()
      ensures Valid() && this.ledger == ledger && this.store == store
      ensures url == downloadUrl && breakPointSupported
      ensures Snapshot() == World(Fields(true, false, 0, Some(saveFolder), fileName, None), None, ledger.Tables(), store.files)
    {
      this.url := downloadUrl;
      this.breakPointSupported := true;
      this.ledger := ledger;
      this.store := store;
      this.stop := true;
      this.finished := false;
      this.fileSize := 0;
      this.saveFolder := Some(saveFolder);
      this.fileName := fileName;
      this.savedFile := None;
      this.log := null;
    }

    /** The five-argument constructor: resuming is chosen by the caller. */
    constructor WithBreakPoint(ledger: Ledger, store: FileStore, downloadUrl: string, saveFolder: string,
                               fileName: Option<string>, breakPointSupported: bool)
      requires ledger.Valid()
      ensures Valid() && this.ledger == ledger && this.store == store
      ensures url == downloadUrl && this.breakPointSupported == breakPointSupported
      ensures Snapshot() == World(Fields(true, false, 0, Some(saveFolder), fileName, None), None, ledger.Tables(), store.files)
    {
      this.url := downloadUrl;
      this.breakPointSupported := breakPointSupported;
      this.ledger := ledger;
      this.store := store;
      this.stop := true;
      this.finished := false;
      this.fileSize := 0;
      this.saveFolder := Some(saveFolder);
      this.fileName := fileName;
      this.savedFile := None;
      this.log := null;
    }

    function IsFinished(): (r: bool)
      reads this
      ensures r == Snapshot().fields.finished
    {
      finished
    }

    function IsStop(): (r: bool)
      reads this
      ensures r == Snapshot().fields.stop
    {
      stop
    }

    function GetFileSize(): (r: int)
      reads this
      ensures r == Snapshot().fields.fileSize
    {
      fileSize
    }

    /** `stop()`: sets the flag and releases the log's lock. */
    method Stop()
      modifies this, log
      ensures stop && log == old(log)
      ensures log != null ==> log.View() == old(log.View()).(locked := false)
      ensures finished == old(finished) && fileSize == old(fileSize) && savedFile == old(savedFile)
      ensures saveFolder == old(saveFolder) && fileName == old(fileName)
      ensures Snapshot() == Stopped(old(Snapshot()))
    {
      stop := true;
      if log != null {
        log.Unlock();
      }
    }

    /**
     * `getFileName`: the last path segment of the url, else the first
     * `filename=` capture of a Content-Disposition header, else a fresh name.
     */
    method GetFileName(headers: seq<Header>, defaultSuffix: string, freshName: string)
      returns (r: Result<string, DownloadError>)
      ensures r == ResolveFileName(url, headers, defaultSuffix, freshName)
    {
      var filename := url[LastIndexOf(url, '/') + 1..];
      if filename != "" {
        return Ok(filename);
      }
      var i := 0;
      while i < |headers|
        invariant 0 <= i <= |headers|
        invariant NameFromHeaders(headers, defaultSuffix, freshName) == NameFromHeaders(headers[i..], defaultSuffix, freshName)
      {
        var h := headers[i];
        if h.key.None? {
          return Err(NullReference);
        }
        if Lower(h.key.value) == "content-disposition" {
          var m := FilenameToken(Lower(h.value));
          if m.Some? {
            return Ok(m.value);
          }
        }
        assert headers[i..][1..] == headers[i + 1..];
        i := i + 1;
      }
      return Ok(freshName + defaultSuffix);
    }

    /** `download(defaultSuffix, listener)`; `listener` says whether a listener was passed. */
    method Download(defaultSuffix: string, listener: bool, env: Env) returns (outcome: Outcome, trace: seq<Event>)
      requires Valid()
      modifies this, log, ledger, store
      ensures Valid()
      ensures Run(Snapshot(), outcome, trace) == DownloadRun(url, breakPointSupported, old(Snapshot()), defaultSuffix, listener, env)
    {
      ghost var w0 := Snapshot();
      if log != null && log.locked {
        return Returned(savedFile), [];
      }
      stop := false;
      ghost var w1 := w0.(fields := w0.fields.(stop := false));
      assert Snapshot() == w1;
      if breakPointSupported {
        ghost var found := FirstWithUrl(ledger.rows, url);
        log := ledger.GetLogByUrl(url);
        ghost var w2 := w1.(log := if found.None? then None else Some(RowLog(found.value)));
        assert Snapshot() == w2;
        if log != null && log.downloadedSize == log.totalSize {
          outcome, trace := Promote();
          assert Run(Snapshot(), outcome, trace) == PromoteRun(url, w2);
          return;
        }
        outcome, trace := Proceed(defaultSuffix, listener, env);
        assert Run(Snapshot(), outcome, trace) == ProceedRun(url, breakPointSupported, w2, defaultSuffix, listener, env);
      } else {
        outcome, trace := Proceed(defaultSuffix, listener, env);
        assert Run(Snapshot(), outcome, trace) == ProceedRun(url, breakPointSupported, w1, defaultSuffix, listener, env);
      }
    }

    /** `download`, Downloader.java:117-125: the complete row becomes history. */
    method Promote() returns (outcome: Outcome, trace: seq<Event>)
      requires Valid() && log != null
      modifies this, log, ledger
      ensures Valid()
      ensures Run(Snapshot(), outcome, trace) == PromoteRun(url, old(Snapshot()))
    {
      if log.savedFile.None? {
        return Failed(NullReference), [];
      }
      savedFile := log.savedFile;
      var deleted := ledger.Delete(url);
      ledger.SaveHistory(log);
      finished := true;
      log.Unlock();
      stop := true;
      return Returned(savedFile), [];
    }

    /** `download`, Downloader.java:129-220. */
    method Proceed(defaultSuffix: string, listener: bool, env: Env) returns (outcome: Outcome, trace: seq<Event>)
      requires Valid() && !stop
      modifies this, log, ledger, store
      ensures Valid()
      ensures Run(Snapshot(), outcome, trace) == ProceedRun(url, breakPointSupported, old(Snapshot()), defaultSuffix, listener, env)
    {
      if finished {
        if log != null {
          log.Unlock();
        }
        stop := true;
        return Returned(savedFile), [];
      }
      if log == null {
        outcome, trace := StartFresh(defaultSuffix, listener, env);
      } else {
        outcome, trace := StartResume(listener, env);
      }
    }

    /** `download`, Downloader.java:141-214: no log yet. */
    method StartFresh(defaultSuffix: string, listener: bool, env: Env) returns (outcome: Outcome, trace: seq<Event>)
      requires Valid() && log == null && !stop
      modifies this, ledger, store
      ensures Valid()
      ensures Run(Snapshot(), outcome, trace) == FreshRun(url, breakPointSupported, old(Snapshot()), defaultSuffix, listener, env)
    {
      trace := [MetadataRequested];
      match env.meta {
        case Unreachable =>
          return Failed(ConnectFailed), trace;
        case Meta(code, length, headers) =>
          if code != ResponseOk {
            return Failed(ServerError(code)), trace;
          }
          fileSize := length;
          if length < 0 {
            return Failed(SizeUnknown), trace;
          }
          var name: string;
          if IsEmpty(fileName) {
            var resolved := GetFileName(headers, defaultSuffix, env.freshName);
            if resolved.Err? {
              return Failed(resolved.error), trace;
            }
            name := resolved.value;
          } else {
            name := fileName.value;
          }
          outcome, trace := CreateLog(JoinPath(saveFolder, name), length, listener, env);
      }
    }

    /** `download`, Downloader.java:159-214: the new log, then the pre-sized file and the transfer. */
    method CreateLog(path: string, length: nat, listener: bool, env: Env) returns (outcome: Outcome, trace: seq<Event>)
      requires Valid() && log == null && !stop
      modifies this, ledger, store
      ensures Valid()
      ensures Run(Snapshot(), outcome, trace) == FreshNamed(url, breakPointSupported, old(Snapshot()), path, length, listener, env)
    {
      ghost var w0 := Snapshot();
      ghost var v := NewLog(url, length, path);
      trace := [MetadataRequested];
      savedFile := Some(path);
      log := new DownloadLog(Some(url), 0, length, Some(path));
      if breakPointSupported {
        var id := ledger.Save(log);
      }
      ghost var t1 := if breakPointSupported then Saved(w0.table, Some(v)) else w0.table;
      assert log.View() == v && ledger.Tables() == t1;
      if log.downloadedSize == length {
        if breakPointSupported {
          var deleted := ledger.Delete(url);
        }
        ledger.SaveHistory(log);
        assert ledger.Tables() == WithHistory(if breakPointSupported then Deleted(t1, url) else t1, v);
        stop := true;
        finished := true;
        return Returned(savedFile), trace;
      }
      PrepareFile(path, length);
      ghost var w1 := Prepared(w0, w0.fields.(savedFile := Some(path)), v, t1, path, length);
      assert Snapshot() == w1;
      outcome, trace := Transfer(listener, env, trace);
      assert Run(Snapshot(), outcome, trace) == TransferRun(url, w1, listener, env, [MetadataRequested]);
    }

    /** `download`, Downloader.java:172 and 194-198: the log is locked and the file sized. */
    method PrepareFile(path: string, length: nat)
      requires log != null
      modifies log, store
      ensures var w := old(Snapshot());
        Snapshot() == w.(log := Some(w.log.value.(locked := true)),
                         files := w.files[path := Resized(ContentsOf(w.files, path), length)])
    {
      log.Lock();
      store.Open(path);
      store.SetLength(path, length);
    }

    /** `download`, Downloader.java:215-220: an existing log is resumed. */
    method StartResume(listener: bool, env: Env) returns (outcome: Outcome, trace: seq<Event>)
      requires Valid() && log != null && !stop
      modifies this, log, ledger, store
      ensures Valid()
      ensures Run(Snapshot(), outcome, trace) == ResumeRun(url, old(Snapshot()), listener, env)
    {
      ghost var w0 := Snapshot();
      fileSize := log.totalSize;
      if log.savedFile.None? {
        return Failed(NullReference), [];
      }
      var path := log.savedFile.value;
      savedFile := Some(path);
      saveFolder := ParentPath(path);
      fileName := Some(BaseName(path));
      assert Snapshot() == Resumed(w0, path);
      outcome, trace := Transfer(listener, env, []);
      assert Run(Snapshot(), outcome, trace) == TransferRun(url, Resumed(w0, path), listener, env, []);
    }

    /** `download`, Downloader.java:222-308: the ranged request and the chunk loop. */
    method Transfer(listener: bool, env: Env, trace0: seq<Event>) returns (outcome: Outcome, trace: seq<Event>)
      requires Valid() && log != null && savedFile.Some? && !stop
      modifies this, log, ledger, store
      ensures Valid()
      ensures Run(Snapshot(), outcome, trace) == TransferRun(url, old(Snapshot()), listener, env, trace0)
    {
      ghost var w0 := Snapshot();
      var l := log;
      trace := trace0;
      if listener {
        trace := trace + [ProgressUpdated(l.downloadedSize, l.totalSize)];
      }
      var startPos := l.downloadedSize;
      var endPos := l.totalSize;
      trace := trace + [RangeRequested(RangeHeader(startPos, endPos))];
      assert trace == Requested(trace0, l.View(), listener);
      match env.range {
        case NoStream =>
          l.Unlock();
          assert Snapshot() == w0.(log := Unlocked(w0.log));
          return Failed(TransferFailed), trace;
        case Stream(chunks, fails) =>
          var path := savedFile.value;
          store.Open(path);
          ghost var w1 := w0.(files := w0.files[path := ContentsOf(w0.files, path)]);
          assert Snapshot() == w1;
          if startPos < 0 {
            l.Unlock();
            assert Snapshot() == w1.(log := Unlocked(w1.log));
            return Failed(TransferFailed), trace;
          }
          var trace1 := trace;
          outcome, trace := ReadChunks(listener, chunks, fails, env.stopAt, trace1);
          assert Run(Snapshot(), outcome, trace) == StreamRun(url, w1, listener, chunks, fails, env.stopAt, trace1);
      }
    }

    /** One pass of the loop body, lines 269-275 of `download`. */
    method ReadChunk(path: string, position: nat, chunk: seq<byte>, listener: bool, trace0: seq<Event>, ghost q: Progress)
      returns (next: nat, trace: seq<Event>)
      requires Valid() && log != null && path in store.files
      requires log.downloadedSize == q.downloadedSize && position == q.position
      requires ledger.rows == q.rows && store.files[path] == q.file && trace0 == q.trace
      modifies log, ledger, store
      ensures Valid() && path in store.files
      ensures var r := Step(q, url, log.totalSize, listener, chunk);
        && log.View() == old(log.View()).(downloadedSize := r.downloadedSize)
        && next == r.position && ledger.rows == r.rows && trace == r.trace
        && store.files == old(store.files)[path := r.file]
      ensures ledger.history == old(ledger.history) && ledger.nextId == old(ledger.nextId)
    {
      ghost var r := Step(q, url, log.totalSize, listener, chunk);
      StepParts(q, url, log.totalSize, listener, chunk);
      store.Write(path, position, chunk);
      assert store.files == old(store.files)[path := r.file];
      next := position + |chunk|;
      log.SetDownloadedSize(log.downloadedSize + |chunk|);
      assert log.downloadedSize == r.downloadedSize;
      var count := ledger.Update(log);
      assert ledger.rows == r.rows;
      trace := trace0;
      if listener {
        trace := trace + [ProgressUpdated(log.downloadedSize, log.totalSize)];
      }
      assert trace == r.trace;
    }

    /** `download`, Downloader.java:264-281: the loop, then the outcome. */
    method ReadChunks(listener: bool, chunks: seq<seq<byte>>, fails: bool, stopAt: Option<nat>, trace1: seq<Event>)
      returns (outcome: Outcome, trace: seq<Event>)
      requires Valid() && log != null && savedFile.Some? && !stop
      requires log.downloadedSize >= 0 && savedFile.value in store.files
      modifies this, log, ledger, store
      ensures Valid()
      ensures Run(Snapshot(), outcome, trace) == StreamRun(url, old(Snapshot()), listener, chunks, fails, stopAt, trace1)
    {
      ghost var w0 := Snapshot();
      ghost var v0 := log.View();
      var path := savedFile.value;
      var i;
      ghost var p;
      i, p, trace := ReadLoop(listener, chunks, stopAt, trace1);
      ghost var done := World(w0.fields.(stop := stop),
                              Some(v0.(downloadedSize := p.downloadedSize, locked := false)),
                              w0.table.(rows := p.rows),
                              w0.files[path := p.file]);
      if !stop && fails {
        log.Unlock();
        assert Snapshot() == done;
        return Failed(TransferFailed), trace;
      }
      finished := log.downloadedSize == log.totalSize;
      log.Unlock();
      assert Snapshot() == done.(fields := done.fields.(finished := p.downloadedSize == v0.totalSize));
      return Returned(savedFile), trace;
    }

    /**
     * `download`, Downloader.java:268-276: the flag is checked before every read,
     * and a stop is observed before the read at boundary `stopAt`.
     */
    method ReadLoop(listener: bool, chunks: seq<seq<byte>>, stopAt: Option<nat>, trace1: seq<Event>)
      returns (i: nat, ghost p: Progress, trace: seq<Event>)
      requires Valid() && log != null && savedFile.Some? && !stop
      requires log.downloadedSize >= 0 && savedFile.value in store.files
      modifies this, log, ledger, store
      ensures Valid() && log == old(log) && savedFile == old(savedFile)
      ensures i == ChunksRead(|chunks|, stopAt) && stop == StopSeen(|chunks|, stopAt)
      ensures p == Steps(Progress(old(log.downloadedSize), old(log.downloadedSize), old(ledger.rows),
                                  old(store.files)[savedFile.value], trace1),
                         url, old(log.totalSize), listener, chunks[..i])
      ensures log.View() == old(log.View()).(downloadedSize := p.downloadedSize, locked := log.locked)
      ensures ledger.rows == p.rows && ledger.history == old(ledger.history) && ledger.nextId == old(ledger.nextId)
      ensures store.files == old(store.files)[savedFile.value := p.file]
      ensures trace == p.trace
      ensures fileSize == old(fileSize) && finished == old(finished)
      ensures saveFolder == old(saveFolder) && fileName == old(fileName)
    {
      var l := log;
      var path := savedFile.value;
      var position: nat := l.downloadedSize;
      trace := trace1;
      p := Progress(l.downloadedSize, l.downloadedSize, ledger.rows, store.files[path], trace1);
      ghost var s := LoopStart(l.View(), store.files, ledger.Tables(),
                               Fields(stop, finished, fileSize, saveFolder, fileName, savedFile), p);
      i := 0;
      if stopAt == Some(0) {
        Stop();
      }
      assert chunks[..0] == [];
      while !stop && i < |chunks|
        invariant Looping(s, l, path, listener, chunks, stopAt, i, p, position, trace)
        decreases |chunks| - i
      {
        i, p, position, trace := Advance(s, l, path, listener, chunks, stopAt, i, p, position, trace);
      }
    }

    /**
     * What holds at each boundary of the loop: `i` chunks read, and the
     * log, the rows, the file and the trace are those of `Steps` over them.
     */
    ghost predicate Looping(s: LoopStart, l: DownloadLog, path: string, listener: bool, chunks: seq<seq<byte>>,
                            stopAt: Option<nat>, i: nat, p: Progress, position: nat, trace: seq<Event>)
      reads this, l, ledger, store
    {
      && ReadSoFar(s, l, path, listener, chunks, stopAt, i, p, position, trace)
      && (stop <==> stopAt == Some(i))
    }

    /** `Looping` without the stop flag: the state after `i` chunks. */
    ghost predicate ReadSoFar(s: LoopStart, l: DownloadLog, path: string, listener: bool, chunks: seq<seq<byte>>,
                         stopAt: Option<nat>, i: nat, p: Progress, position: nat, trace: seq<Event>)
      reads this, l, ledger, store
    {
      && i <= |chunks|
      && log == l && ledger.Valid() && l.url == Some(url)
      && (stopAt.Some? ==> i <= stopAt.value)
      && savedFile == Some(path) && path in store.files
      && l.View() == s.log.(downloadedSize := l.downloadedSize, locked := l.locked)
      && p == Steps(s.progress, url, s.log.totalSize, listener, chunks[..i])
      && l.downloadedSize == p.downloadedSize && position == p.position
      && ledger.rows == p.rows && ledger.history == s.table.history && ledger.nextId == s.table.nextId
      && store.files == s.files[path := p.file]
      && trace == p.trace
      && fileSize == s.fields.fileSize && finished == s.fields.finished
      && saveFolder == s.fields.saveFolder && fileName == s.fields.fileName
    }

    /** One iteration of the loop, then the stop check at the next boundary. */
    method Advance(ghost s: LoopStart, l: DownloadLog, path: string, listener: bool, chunks: seq<seq<byte>>,
                   stopAt: Option<nat>, i: nat, ghost p: Progress, position: nat, trace: seq<Event>)
      returns (i': nat, ghost p': Progress, position': nat, trace': seq<Event>)
      requires Looping(s, l, path, listener, chunks, stopAt, i, p, position, trace)
      requires !stop && i < |chunks|
      modifies this, l, ledger, store
      ensures i' == i + 1
      ensures Looping(s, l, path, listener, chunks, stopAt, i', p', position', trace')
    {
      StepsSnoc(s.progress, url, s.log.totalSize, listener, chunks, i);
      position', trace' := ReadChunk(path, position, chunks[i], listener, trace, p);
      p' := Step(p, url, s.log.totalSize, listener, chunks[i]);
      i' := i + 1;
      CheckStop(s, l, path, listener, chunks, stopAt, i', p', position', trace');
    }

    /** The stop check at a boundary: the flag is raised by the caller after `i` chunks. */
    method CheckStop(ghost s: LoopStart, l: DownloadLog, path: string, listener: bool, chunks: seq<seq<byte>>,
                     stopAt: Option<nat>, i: nat, ghost p: Progress, position: nat, trace: seq<Event>)
      requires ReadSoFar(s, l, path, listener, chunks, stopAt, i, p, position, trace) && !stop
      modifies this, l
      ensures Looping(s, l, path, listener, chunks, stopAt, i, p, position, trace)
    {
      if stopAt == Some(i) {
        Stop();
      }
    }
  }
}
