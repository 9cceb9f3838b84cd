/**
 * What one call of `download` does, stated over `DownloadSpec`: which
 * branch is taken, what each branch leaves in the fields, the log, the
 * ledger and the saved file, and what it sends out.
 */
module DownloadProperties {
  import opened Wrappers
  import opened Text
  import opened Files
  import opened DownloadLogs
  import opened DownloadDb
  import opened DownloadTypes
  import opened FileNames
  import opened ChunkLoop
  import opened DownloadSpec

  predicate Locked(w: World) {
    w.log.Some? && w.log.value.locked
  }

  // ---------------------------------------------------------------------
  // Which branch a call takes
  // ---------------------------------------------------------------------

  /** While the log is locked, a call returns the saved file and changes nothing. */
  lemma LockedCallChangesNothing(url: string, resume: bool, w: World, defaultSuffix: string, listener: bool, env: Env)
    requires LogOf(url, w) && Locked(w)
    ensures DownloadRun(url, resume, w, defaultSuffix, listener, env) == Run(w, Returned(w.fields.savedFile), [])
  {
  }

  /**
   * With resume enabled, a complete first row for the url is deleted with
   * every other row of the url, added to history, and its saved file
   * returned, with both flags set and no request sent.
   */
  lemma CompleteRowPromoted(url: string, w: World, defaultSuffix: string, listener: bool, env: Env, row: Row)
    requires LogOf(url, w) && !Locked(w)
    requires FirstWithUrl(w.table.rows, url) == Some(row)
    requires row.downloadedSize == row.totalSize && row.savedFile.Some?
    ensures var r := DownloadRun(url, true, w, defaultSuffix, listener, env);
      && r.outcome == Returned(row.savedFile)
      && r.trace == []
      && r.world.table.rows == WithoutUrl(w.table.rows, url)
      && FirstWithUrl(r.world.table.rows, url).None?
      && r.world.table.history == w.table.history + [HistoryOf(RowLog(row))]
      && r.world.fields.finished && r.world.fields.stop
      && r.world.fields.savedFile == row.savedFile
      && r.world.log == Some(RowLog(row))
      && r.world.files == w.files
  {
    DeleteRemovesExactlyMatching(w.table, url);
  }

  /** The state a fresh download starts from: no log to resume and nothing finished. */
  predicate StartsFresh(url: string, resume: bool, w: World) {
    && !Locked(w) && !w.fields.finished
    && (if resume then FirstWithUrl(w.table.rows, url).None? else w.log.None?)
  }

  /** Without a log to resume, a call is a fresh download with the stop flag cleared. */
  lemma FreshWithoutLog(url: string, resume: bool, w: World, defaultSuffix: string, listener: bool, env: Env)
    requires LogOf(url, w) && StartsFresh(url, resume, w)
    ensures DownloadRun(url, resume, w, defaultSuffix, listener, env)
         == FreshRun(url, resume, w.(fields := w.fields.(stop := false), log := None), defaultSuffix, listener, env)
  {
  }

  /** With resume enabled, an incomplete first row is resumed, whatever log was in memory. */
  lemma StoredRowResumed(url: string, w: World, defaultSuffix: string, listener: bool, env: Env, row: Row)
    requires LogOf(url, w) && !Locked(w) && !w.fields.finished
    requires FirstWithUrl(w.table.rows, url) == Some(row) && row.downloadedSize != row.totalSize
    ensures var w' := w.(fields := w.fields.(stop := false), log := Some(RowLog(row)));
      && LogOf(url, w')
      && DownloadRun(url, true, w, defaultSuffix, listener, env) == ResumeRun(url, w', listener, env)
  {
  }

  // ---------------------------------------------------------------------
  // A fresh download
  // ---------------------------------------------------------------------

  /**
   * A failed metadata request, a status other than 200 or a negative
   * length fails the call before any log, row or file exists.
   */
  lemma FreshRejectsBadResponse(url: string, resume: bool, w: World, defaultSuffix: string, listener: bool, env: Env)
    requires w.log.None?
    requires env.meta.Unreachable? || env.meta.code != ResponseOk || env.meta.contentLength < 0
    ensures var r := FreshRun(url, resume, w, defaultSuffix, listener, env);
      && r.outcome == Failed(if env.meta.Unreachable? then ConnectFailed
                             else if env.meta.code != ResponseOk then ServerError(env.meta.code)
                             else SizeUnknown)
      && r.world.log.None? && r.world.table == w.table && r.world.files == w.files
      && r.trace == [MetadataRequested]
  {
  }

  /**
   * An accepted metadata response records the content length as the file
   * size and continues with the chosen name inside the save folder.
   */
  lemma FreshChoosesPath(url: string, resume: bool, w: World, defaultSuffix: string, listener: bool, env: Env, name: string)
    requires w.log.None? && env.meta.Meta? && env.meta.code == ResponseOk && env.meta.contentLength >= 0
    requires ChosenName(url, w.fields.fileName, env.meta.headers, defaultSuffix, env.freshName) == Ok(name)
    ensures FreshRun(url, resume, w, defaultSuffix, listener, env)
         == FreshNamed(url, resume, w.(fields := w.fields.(fileSize := env.meta.contentLength)),
                       JoinPath(w.fields.saveFolder, name), env.meta.contentLength, listener, env)
  {
  }

  /**
   * A zero content length finishes at once: the new log at offset 0 goes
   * into history, no transfer is requested, the files are untouched, and
   * with resume enabled no row of the url is left behind.
   */
  lemma FreshEmptyFinishes(url: string, resume: bool, w: World, path: string, listener: bool, env: Env)
    ensures var r := FreshNamed(url, resume, w, path, 0, listener, env);
      && r.outcome == Returned(Some(path)) && r.trace == [MetadataRequested]
      && r.world.fields == w.fields.(savedFile := Some(path), stop := true, finished := true)
      && r.world.log == Some(NewLog(url, 0, path))
      && r.world.table.history == w.table.history + [HistoryOf(NewLog(url, 0, path))]
      && (resume ==> FirstWithUrl(r.world.table.rows, url).None?)
      && (!resume ==> r.world.table.rows == w.table.rows)
      && r.world.files == w.files
  {
    if resume {
      DeleteRemovesExactlyMatching(Saved(w.table, Some(NewLog(url, 0, path))), url);
    }
  }

  /**
   * A positive content length locks the new log, sizes the file to the
   * length, saves the row only when resume is enabled, and transfers.
   */
  lemma FreshTransfers(url: string, resume: bool, w: World, path: string, length: nat, listener: bool, env: Env)
    requires length > 0
    ensures var v := NewLog(url, length, path);
      var t1 := if resume then Saved(w.table, Some(v)) else w.table;
      var w1 := Prepared(w, w.fields.(savedFile := Some(path)), v, t1, path, length);
      && FreshNamed(url, resume, w, path, length, listener, env) == TransferRun(url, w1, listener, env, [MetadataRequested])
      && Locked(w1) && w1.fields.savedFile == Some(path)
      && path in w1.files && |w1.files[path]| == length
      && |w1.table.rows| == |w.table.rows| + (if resume && url != "" then 1 else 0)
  {
    var v := NewLog(url, length, path);
    if resume && url != "" {
      SaveAppendsOneRow(w.table, v);
    }
  }

  /** The Prepared state holds the log locked and the file pre-sized to the length. */
  lemma PreparedLocksAndSizes(w: World, f: Fields, v: LogView, t: Table, path: string, length: nat)
    ensures var w1 := Prepared(w, f, v, t, path, length);
      && Locked(w1) && w1.log.value.(locked := false) == v.(locked := false)
      && path in w1.files && |w1.files[path]| == length
  {
  }

  // ---------------------------------------------------------------------
  // The resume path and the ranged request
  // ---------------------------------------------------------------------

  /**
   * Resuming adopts the stored log's total size and saved file (and the
   * file's folder and name), starts the transfer with the stored log as it
   * is, its lock flag included (the fresh path locks its new log first), ends
   * with the log unlocked, and the request asks for the bytes from the
   * downloaded size to the total size.
   */
  lemma ResumeAdoptsStoredLog(url: string, w: World, listener: bool, env: Env)
    requires w.log.Some? && LogOf(url, w) && w.log.value.savedFile.Some?
    ensures var v := w.log.value;
      var path := v.savedFile.value;
      var r := ResumeRun(url, w, listener, env);
      && r == TransferRun(url, Resumed(w, path), listener, env, [])
      && Resumed(w, path).log == w.log && Resumed(w, path).table == w.table && Resumed(w, path).files == w.files
      && r.world.log.Some? && !r.world.log.value.locked
      && r.world.fields.fileSize == v.totalSize && r.world.fields.savedFile == Some(path)
      && r.world.fields.saveFolder == ParentPath(path) && r.world.fields.fileName == Some(BaseName(path))
      && |r.trace| > (if listener then 1 else 0)
      && r.trace[if listener then 1 else 0] == RangeRequested(RangeHeader(v.downloadedSize, v.totalSize))
      && (listener ==> r.trace[0] == ProgressUpdated(v.downloadedSize, v.totalSize))
  {
    TransferRequestsRange(url, Resumed(w, w.log.value.savedFile.value), listener, env, []);
    TransferReleasesLog(url, Resumed(w, w.log.value.savedFile.value), listener, env, []);
  }

  /** A stored log without a saved file makes the resume throw before any request. */
  lemma ResumeWithoutFileThrows(url: string, w: World, listener: bool, env: Env)
    requires w.log.Some? && LogOf(url, w) && w.log.value.savedFile.None?
    ensures var r := ResumeRun(url, w, listener, env);
      && r.outcome == Failed(NullReference) && r.trace == []
      && r.world == w.(fields := w.fields.(fileSize := w.log.value.totalSize))
  {
  }

  /** A non-negative range header reads back as its two offsets. */
  lemma RangeHeaderRoundTrip(startPos: nat, endPos: nat)
    ensures var h := RangeHeader(startPos, endPos);
      var k := LastIndexOf(h, '-');
      && h[..6] == "bytes="
      && 6 < k
      && ParseDecimal(h[6..k]) == Some(startPos)
      && ParseDecimal(h[k + 1..]) == Some(endPos)
  {
    var a, b := Decimal(startPos), Decimal(endPos);
    var x := "bytes=" + a;
    assert RangeHeader(startPos, endPos) == x + ['-'] + b;
    DigitsShape(endPos);
    assert b == Digits(endPos);
    LastIndexOfSplit(x, '-', b);
    var h := x + ['-'] + b;
    assert h[..6] == "bytes=" && h[6..|x|] == a && h[|x| + 1..] == b;
    DecimalRoundTrip(startPos);
    DecimalRoundTrip(endPos);
  }

  // ---------------------------------------------------------------------
  // The transfer
  // ---------------------------------------------------------------------

  /**
   * The chunk loop from offset `downloadedSize`: exactly the chunks before
   * the stop are read, the size grows by their bytes, every one rewrites the
   * url's rows (the last rewrite wins), and with a listener each records one
   * callback carrying the size reached.
   */
  lemma StreamStepsFacts(url: string, w: World, listener: bool, chunks: seq<seq<byte>>, stopAt: Option<nat>, trace1: seq<Event>)
    requires w.log.Some? && w.fields.savedFile.Some? && w.log.value.downloadedSize >= 0
    ensures var v := w.log.value;
      var read := chunks[..ChunksRead(|chunks|, stopAt)];
      var p := StreamSteps(url, w, listener, chunks, stopAt, trace1);
      && (StopSeen(|chunks|, stopAt) ==> |read| == stopAt.value)
      && (!StopSeen(|chunks|, stopAt) ==> read == chunks)
      && p.downloadedSize == v.downloadedSize + TotalLength(read)
      && p.trace == trace1 + (if listener then ProgressEvents(v.downloadedSize, v.totalSize, read) else [])
      && p.rows == (if read == [] then w.table.rows else UpdatedRows(w.table.rows, url, p.downloadedSize, v.totalSize))
  {
    var v := w.log.value;
    var read := chunks[..ChunksRead(|chunks|, stopAt)];
    var p0 := Progress(v.downloadedSize, v.downloadedSize, w.table.rows, ContentsOf(w.files, w.fields.savedFile.value), trace1);
    StepsAdvance(p0, url, v.totalSize, listener, read);
    StepsRows(p0, url, v.totalSize, listener, read);
    StepsTrace(p0, url, v.totalSize, listener, read);
  }

  /**
   * The chunks read are written back to back from offset `downloadedSize`;
   * the bytes before that offset are unchanged.
   */
  lemma StreamStepsFile(url: string, w: World, listener: bool, chunks: seq<seq<byte>>, stopAt: Option<nat>, trace1: seq<Event>)
    requires w.log.Some? && w.fields.savedFile.Some? && w.log.value.downloadedSize >= 0
    requires w.log.value.downloadedSize <= |ContentsOf(w.files, w.fields.savedFile.value)|
    ensures var v := w.log.value;
      var file := ContentsOf(w.files, w.fields.savedFile.value);
      var read := chunks[..ChunksRead(|chunks|, stopAt)];
      var p := StreamSteps(url, w, listener, chunks, stopAt, trace1);
      var size := v.downloadedSize + TotalLength(read);
      && |p.file| == Max(|file|, size)
      && p.file[..v.downloadedSize] == file[..v.downloadedSize]
      && p.file[v.downloadedSize..size] == Concat(read)
  {
    var v := w.log.value;
    var read := chunks[..ChunksRead(|chunks|, stopAt)];
    var p0 := Progress(v.downloadedSize, v.downloadedSize, w.table.rows, ContentsOf(w.files, w.fields.savedFile.value), trace1);
    StepsFileContents(p0, url, v.totalSize, listener, read);
  }

  /**
   * How the loop ends: the stop flag is set exactly when the stop was seen,
   * the call fails exactly when the stream broke before a stop, and a call
   * that returns is finished exactly when the size reached the total. The
   * log is unlocked either way, and the row is never deleted.
   */
  lemma StreamOutcome(url: string, w: World, listener: bool, chunks: seq<seq<byte>>, fails: bool, stopAt: Option<nat>, trace1: seq<Event>)
    requires w.log.Some? && w.fields.savedFile.Some? && w.log.value.downloadedSize >= 0
    ensures var v := w.log.value;
      var p := StreamSteps(url, w, listener, chunks, stopAt, trace1);
      var r := StreamRun(url, w, listener, chunks, fails, stopAt, trace1);
      && r.world.log == Some(v.(downloadedSize := p.downloadedSize, locked := false))
      && r.world.table == w.table.(rows := p.rows)
      && r.world.files == w.files[w.fields.savedFile.value := p.file]
      && r.trace == p.trace
      && r.world.fields.stop == (w.fields.stop || StopSeen(|chunks|, stopAt))
      && (r.outcome.Failed? <==> fails && !StopSeen(|chunks|, stopAt))
      && (r.outcome.Failed? ==> r.outcome == Failed(TransferFailed) && r.world.fields.finished == w.fields.finished)
      && (r.outcome.Returned? ==> r.outcome == Returned(w.fields.savedFile)
                                  && r.world.fields.finished == (p.downloadedSize == v.totalSize))
  {
  }

  /**
   * Every transfer ends with the log unlocked and otherwise as it was but
   * for the downloaded size; the saved file is what a returning call yields.
   */
  lemma TransferReleasesLog(url: string, w: World, listener: bool, env: Env, trace0: seq<Event>)
    requires w.log.Some? && w.fields.savedFile.Some?
    ensures var v := w.log.value;
      var r := TransferRun(url, w, listener, env, trace0);
      && r.world.log.Some? && !r.world.log.value.locked
      && r.world.log.value == v.(downloadedSize := r.world.log.value.downloadedSize, locked := false)
      && r.world.fields.(stop := w.fields.stop, finished := w.fields.finished) == w.fields
      && (r.outcome.Returned? ==> r.outcome == Returned(w.fields.savedFile))
  {
    var v := w.log.value;
    if env.range.Stream? && v.downloadedSize >= 0 {
      var path := w.fields.savedFile.value;
      var w1 := w.(files := w.files[path := ContentsOf(w.files, path)]);
      StreamOutcome(url, w1, listener, env.range.chunks, env.range.fails, env.stopAt, Requested(trace0, v, listener));
    }
  }

  /**
   * A transfer neither adds nor deletes rows (the loop never deletes the
   * row), keeps the number of rows of every url, and leaves history alone.
   */
  lemma TransferKeepsRows(url: string, w: World, listener: bool, env: Env, trace0: seq<Event>, u: string)
    requires w.log.Some? && w.fields.savedFile.Some?
    ensures var r := TransferRun(url, w, listener, env, trace0);
      && |r.world.table.rows| == |w.table.rows|
      && CountUrl(r.world.table.rows, u) == CountUrl(w.table.rows, u)
      && r.world.table.history == w.table.history && r.world.table.nextId == w.table.nextId
  {
    var v := w.log.value;
    if env.range.Stream? && v.downloadedSize >= 0 {
      var path := w.fields.savedFile.value;
      var w1 := w.(files := w.files[path := ContentsOf(w.files, path)]);
      var trace1 := Requested(trace0, v, listener);
      StreamStepsFacts(url, w1, listener, env.range.chunks, env.stopAt, trace1);
      StreamOutcome(url, w1, listener, env.range.chunks, env.range.fails, env.stopAt, trace1);
      var p := StreamSteps(url, w1, listener, env.range.chunks, env.stopAt, trace1);
      UpdateKeepsKeys(w.table.rows, url, u, p.downloadedSize, v.totalSize);
    }
  }

  /** Whatever happens next, the ranged request follows the optional first callback. */
  lemma TransferRequestsRange(url: string, w: World, listener: bool, env: Env, trace0: seq<Event>)
    requires w.log.Some? && w.fields.savedFile.Some?
    ensures var v := w.log.value;
      var r := TransferRun(url, w, listener, env, trace0);
      var trace1 := Requested(trace0, v, listener);
      && |trace1| == |trace0| + (if listener then 2 else 1)
      && trace1[|trace1| - 1] == RangeRequested(RangeHeader(v.downloadedSize, v.totalSize))
      && (listener ==> trace1[|trace0|] == ProgressUpdated(v.downloadedSize, v.totalSize))
      && |r.trace| >= |trace1| && r.trace[..|trace1|] == trace1
  {
    var v := w.log.value;
    var trace1 := Requested(trace0, v, listener);
    if env.range.Stream? && v.downloadedSize >= 0 {
      var path := w.fields.savedFile.value;
      var w1 := w.(files := w.files[path := ContentsOf(w.files, path)]);
      StreamStepsFacts(url, w1, listener, env.range.chunks, env.stopAt, trace1);
      StreamOutcome(url, w1, listener, env.range.chunks, env.range.fails, env.stopAt, trace1);
      var r := TransferRun(url, w, listener, env, trace0);
      assert r.trace[..|trace1|] == trace1;
    }
  }

  /** A transfer keeps every row's id and url, and rows of other urls entirely. */
  lemma TransferTouchesOnlyUrlRows(url: string, w: World, listener: bool, env: Env, trace0: seq<Event>)
    requires w.log.Some? && w.fields.savedFile.Some?
    ensures var rows := w.table.rows;
      var rows' := TransferRun(url, w, listener, env, trace0).world.table.rows;
      && |rows'| == |rows|
      && (forall i :: 0 <= i < |rows| ==> rows'[i].id == rows[i].id && rows'[i].url == rows[i].url)
      && (forall i :: 0 <= i < |rows| && rows[i].url != url ==> rows'[i] == rows[i])
  {
    var v := w.log.value;
    if env.range.Stream? && v.downloadedSize >= 0 {
      var path := w.fields.savedFile.value;
      var w1 := w.(files := w.files[path := ContentsOf(w.files, path)]);
      var trace1 := Requested(trace0, v, listener);
      StreamStepsFacts(url, w1, listener, env.range.chunks, env.stopAt, trace1);
      StreamOutcome(url, w1, listener, env.range.chunks, env.range.fails, env.stopAt, trace1);
      var p := StreamSteps(url, w1, listener, env.range.chunks, env.stopAt, trace1);
      UpdateKeepsKeys(w.table.rows, url, url, p.downloadedSize, v.totalSize);
    }
  }

  /**
   * After a transfer that read at least one chunk, the url's first row
   * carries the reached size and, in its saved-file column, the total size
   * rendered as text.
   */
  lemma TransferRewritesFirstRow(url: string, w: World, listener: bool, chunks: seq<seq<byte>>, fails: bool, stopAt: Option<nat>, trace1: seq<Event>, row: Row)
    requires w.log.Some? && w.fields.savedFile.Some? && w.log.value.downloadedSize >= 0
    requires FirstWithUrl(w.table.rows, url) == Some(row)
    requires ChunksRead(|chunks|, stopAt) > 0
    ensures var r := StreamRun(url, w, listener, chunks, fails, stopAt, trace1);
      FirstWithUrl(r.world.table.rows, url)
        == Some(Rewritten(row, r.world.log.value.downloadedSize, w.log.value.totalSize))
  {
    StreamStepsFacts(url, w, listener, chunks, stopAt, trace1);
    StreamOutcome(url, w, listener, chunks, fails, stopAt, trace1);
    var p := StreamSteps(url, w, listener, chunks, stopAt, trace1);
    UpdateThenGet(w.table.rows, url, p.downloadedSize, w.log.value.totalSize);
  }

  /**
   * Consequence of the saved-file column `update` writes: the next resumed
   * call takes the total size's text as the path of its saved file.
   */
  lemma ResumeAfterUpdateAdoptsSizeText(url: string, w: World, defaultSuffix: string, listener: bool, env: Env, row: Row, d: int, t: int)
    requires LogOf(url, w) && !Locked(w) && !w.fields.finished
    requires FirstWithUrl(w.table.rows, url) == Some(Rewritten(row, d, t)) && d != t
    ensures DownloadRun(url, true, w, defaultSuffix, listener, env).world.fields.savedFile == Some(Decimal(t))
  {
    var w' := w.(fields := w.fields.(stop := false), log := Some(RowLog(Rewritten(row, d, t))));
    StoredRowResumed(url, w, defaultSuffix, listener, env, Rewritten(row, d, t));
    ResumeAdoptsStoredLog(url, w', listener, env);
  }

  // ---------------------------------------------------------------------
  // Whole calls
  // ---------------------------------------------------------------------

  /** A call that starts unlocked never leaves the log locked, whatever happens. */
  lemma DownloadReleasesLock(url: string, resume: bool, w: World, defaultSuffix: string, listener: bool, env: Env)
    requires LogOf(url, w) && !Locked(w)
    ensures !Locked(DownloadRun(url, resume, w, defaultSuffix, listener, env).world)
  {
    var w1 := w.(fields := w.fields.(stop := false));
    var w2 := if resume then
                var found := FirstWithUrl(w.table.rows, url);
                w1.(log := if found.None? then None else Some(RowLog(found.value)))
              else w1;
    if resume && w2.log.Some? && w2.log.value.downloadedSize == w2.log.value.totalSize {
    } else if w2.fields.finished {
    } else if w2.log.None? {
      FreshReleasesLock(url, resume, w2, defaultSuffix, listener, env);
    } else if w2.log.value.savedFile.Some? {
      TransferReleasesLog(url, Resumed(w2, w2.log.value.savedFile.value), listener, env, []);
    }
  }

  lemma FreshReleasesLock(url: string, resume: bool, w: World, defaultSuffix: string, listener: bool, env: Env)
    requires w.log.None?
    ensures !Locked(FreshRun(url, resume, w, defaultSuffix, listener, env).world)
  {
    if env.meta.Meta? && env.meta.code == ResponseOk && env.meta.contentLength >= 0 {
      var name := ChosenName(url, w.fields.fileName, env.meta.headers, defaultSuffix, env.freshName);
      if name.Ok? {
        var length := env.meta.contentLength;
        var w1 := w.(fields := w.fields.(fileSize := length));
        var path := JoinPath(w.fields.saveFolder, name.value);
        FreshChoosesPath(url, resume, w, defaultSuffix, listener, env, name.value);
        if length > 0 {
          FreshTransfers(url, resume, w1, path, length, listener, env);
          var v := NewLog(url, length, path);
          var t1 := if resume then Saved(w1.table, Some(v)) else w1.table;
          TransferReleasesLog(url, Prepared(w1, w1.fields.(savedFile := Some(path)), v, t1, path, length),
                              listener, env, [MetadataRequested]);
        }
      }
    }
  }

  /** `stop()` twice leaves the same state as once. */
  lemma StopIdempotent(w: World)
    ensures Stopped(Stopped(w)) == Stopped(w)
    ensures Stopped(w).fields.stop && !Locked(Stopped(w))
  {
  }
}
