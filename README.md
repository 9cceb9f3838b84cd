# A verified model of the VideoPlayer download engine

The VideoPlayer library plays a video from a url. It can also fetch the file first, with downloads that resume after an interruption. This project models that download engine in Dafny and proves what it does, together with a few pieces of the player screen.

**`Downloader`** (module `Downloaders`) is a class with the Java object's fields:
- the stop and finished flags;
- the file size, the save folder, the file name and the saved file;
- the current `DownloadLog`.

Its `Download` method follows `download` step by step, and each step is a method of its own. One call picks one of four branches:
- it returns at once while the log is locked;
- it promotes a complete ledger row to the history;
- it starts a fresh download: a metadata request, file-name resolution, a new log at offset 0, the lock, and a file pre-sized to the content length;
- it resumes from the stored log.

Then the ranged request and the chunk loop run. Each chunk is written at the moving file offset, the downloaded size grows by its length, the ledger rows of the url are updated, and the listener is told. Each method is proved *equal* to the matching function of `DownloadSpec`. That module states a whole call as a value `Run(world, outcome, trace)`:
- `world` holds the fields, the log, both ledger tables and the file contents;
- `outcome` is the returned saved file or the exception thrown;
- `trace` lists the requests sent and the callbacks made.

`DownloadProperties` proves what the source promises about that function:
- which branch is taken;
- where the file bytes go;
- which rows change and which stay;
- when the lock is released;
- what the ranged request asks for;
- when the call fails, stops or finishes.

The chunk loop is also given as a left fold (`ChunkLoop.Steps`). Its own lemmas cover the contiguous writes, the row rewrites and the callbacks.

**The progress ledger** (module `DownloadDb`) is `DownloadDBUtils` over an in-memory table. The table holds rows in insertion order with autoincrement ids, plus an append-only history. The mapping from the Java operations is:
- `saveLog`, `deleteLog` and `updateLog` behave like the `save`, `delete` and `update` shown in `DownloadDBUtils`;
- `saveHistory` appends to the history;
- `getLogByUrl` reads the first matching row.

The class `Ledger` updates the table in place. The pure functions `Saved`, `Deleted`, `FirstWithUrl` and `Updated` specify it, and the lemmas about them state the contracts of the DAO.

**`update` quirk.** `update` writes the *total size* into the `saved_file` column (`DownloadDBUtils.java:141`). The model keeps this quirk, and `ResumeAfterUpdateAdoptsSizeText` proves its consequence: once a chunk has been read, the next resumed call takes the decimal text of the total size as the path of its saved file.

**The rest of the model:**
- **`DownloadLog`** (module `DownloadLogs`) is a class with a value view `LogView`. It has both constructors, the setters and `toString`, and an assumed lock flag (see Left out).
- **File naming** (module `FileNames`) follows `getFileName`. The name is the text after the url's last `/`. Failing that, it is the `filename=` capture of the first content-disposition header that has one. Failing that, it is a generated name plus the default suffix. A header with a null key throws, because `toLowerCase` is called on it. `HttpURLConnection` reports the status line as header 0, and header 0 has a null key. Whether a connection reports its status line as a header with a null key depends on the `HttpURLConnection` implementation, which is not part of this model; where it does, a url ending in `/` reaches that exception. This is a property of the model, not an observed behaviour.
- **Local files** (module `Files`) are a map from path to bytes. They support `RandomAccessFile`'s `setLength`, `seek` and `write`.
- **The player** (module `Player`) covers three pieces:
  - `formatDuration`'s hours/minutes/seconds split, computed with Java's truncating division for every input;
  - the streaming-scheme test as `String.equalsIgnoreCase` against http, https, ftp and rtsp;
  - `onCompletion`, `onError` and `setPlayListener` as a small class whose notifications are recorded.

## Model

| member | source | states |
|---|---|---|
| Text.IsEmpty | library/src/main/java/com/opensource/videoplayer/Downloader.java:151 | `StringUtils.isEmpty` as assumed: null or of length zero |
| Text.Decimal | library/src/main/java/com/opensource/videoplayer/Downloader.java:244 | `Integer.toString`/`Long.toString`: a minus sign for a negative value, then the digits; `DecimalRoundTrip` is its inverse |
| Text.DecimalRoundTrip | library/src/main/java/com/opensource/videoplayer/Downloader.java:244 | the decimal text Java builds for an int reads back as that int |
| Text.DecimalInjective | library/src/main/java/com/opensource/videoplayer/db/DownloadDBUtils.java:141 | distinct integers have distinct decimal texts |
| Text.DigitsShape | library/src/main/java/com/opensource/videoplayer/Downloader.java:244 | a rendered natural number is a non-empty run of digits without a leading zero |
| Text.LastIndexOf | library/src/main/java/com/opensource/videoplayer/Downloader.java:390 | `lastIndexOf`: the last position holding the character, -1 when there is none |
| Text.AfterLastSplits | library/src/main/java/com/opensource/videoplayer/Downloader.java:390 | the text after the last separator contains no separator and is a suffix of the string, right behind a separator when shorter |
| Text.Lower | library/src/main/java/com/opensource/videoplayer/Downloader.java:397 | `toLowerCase(Locale.ENGLISH)` as modelled: keeps the length, lowers the ASCII letters A-Z and keeps every other character, so no A-Z is left |
| Text.LowerIdempotent | library/src/main/java/com/opensource/videoplayer/Downloader.java:397 | lowering twice is lowering once |
| Files.WriteAt | library/src/main/java/com/opensource/videoplayer/Downloader.java:266-269 | after `seek(pos)` and `write(data)` the bytes before `pos` and after the data are kept and the data sits at `pos`; an empty write changes nothing |
| Files.WriteAtContiguous | library/src/main/java/com/opensource/videoplayer/Downloader.java:268-269 | two consecutive writes at a moving pointer equal one write of both |
| Files.Resized | library/src/main/java/com/opensource/videoplayer/Downloader.java:196-197 | `setLength(n)` gives length `n` and keeps the existing prefix |
| Files.FileStore.Open | library/src/main/java/com/opensource/videoplayer/Downloader.java:195 | opening in "rwd" mode creates a missing file empty and leaves an existing one as it is |
| Files.FileStore.SetLength | library/src/main/java/com/opensource/videoplayer/Downloader.java:197 | only the named file is resized |
| Files.FileStore.Write | library/src/main/java/com/opensource/videoplayer/Downloader.java:269 | only the named file is written, at the given offset |
| DownloadLogs.NullableText | library/src/main/java/com/opensource/videoplayer/DownloadLog.java:89 | string concatenation renders a null field as `null` and any other as its text |
| DownloadLogs.LogText | library/src/main/java/com/opensource/videoplayer/DownloadLog.java:85-94 | the whole layout (`LaidOut`): the labels `DownloadLog{id=`, `, url='`, `, downloadedSize=`, `, totalSize=`, `, savedFile='` in this order, each field's text (`null` for a null url or saved file) right behind its label, the url and saved file closed by a quote, a closing `}`, and the length is the sum of the parts |
| DownloadLogs.LogTextNumbers | library/src/main/java/com/opensource/videoplayer/DownloadLog.java:87-91 | the id, the downloaded size and the total size each read back from their places in the rendering |
| DownloadLogs.DownloadLog.Empty | library/src/main/java/com/opensource/videoplayer/DownloadLog.java:33-35 | id and both sizes 0, url and saved file null, unlocked |
| DownloadLogs.DownloadLog.constructor | library/src/main/java/com/opensource/videoplayer/DownloadLog.java:37-43 | the four values are stored exactly as given, and the id is 0 |
| DownloadLogs.DownloadLog.SetId | library/src/main/java/com/opensource/videoplayer/DownloadLog.java:49-51 | only the id changes, to the value given |
| DownloadLogs.DownloadLog.SetUrl | library/src/main/java/com/opensource/videoplayer/DownloadLog.java:57-59 | only the url changes, to the value given |
| DownloadLogs.DownloadLog.SetDownloadedSize | library/src/main/java/com/opensource/videoplayer/DownloadLog.java:65-67 | only the downloaded size changes, to the value given |
| DownloadLogs.DownloadLog.SetTotalSize | library/src/main/java/com/opensource/videoplayer/DownloadLog.java:73-75 | only the total size changes, to the value given |
| DownloadLogs.DownloadLog.SetSavedFile | library/src/main/java/com/opensource/videoplayer/DownloadLog.java:81-83 | only the saved file changes, to the value given |
| DownloadLogs.DownloadLog.Lock | library/src/main/java/com/opensource/videoplayer/Downloader.java:172 | only the lock flag changes, to set |
| DownloadLogs.DownloadLog.Unlock | library/src/main/java/com/opensource/videoplayer/Downloader.java:122 | only the lock flag changes, to clear |
| DownloadLogs.DownloadLog.ToString | library/src/main/java/com/opensource/videoplayer/DownloadLog.java:85-94 | the rendering `LogText` of the object's current five fields, so it has the layout `LaidOut` states |
| DownloadDb.FirstWithUrl | library/src/main/java/com/opensource/videoplayer/db/DownloadDBUtils.java:102-125 | the row `getLogByUrl` reads: the first row of the url, or none; `FirstIndexWithUrl` states which one |
| DownloadDb.Rewritten | library/src/main/java/com/opensource/videoplayer/db/DownloadDBUtils.java:139-141 | the row `update` writes: both sizes replaced and the total size's decimal text stored as `saved_file`; id and url kept |
| DownloadDb.RowLog | library/src/main/java/com/opensource/videoplayer/db/DownloadDBUtils.java:109-119 | the log `getLogByUrl` builds from the cursor: the row's id, url, sizes and saved file, and the flag clear |
| DownloadDb.HistoryOf | library/src/main/java/com/opensource/videoplayer/Downloader.java:120 | the history row `saveHistory` records: the log's url, total size and saved file |
| DownloadDb.Saved | library/src/main/java/com/opensource/videoplayer/db/DownloadDBUtils.java:51-74 | `save` on the tables: unchanged for a null log or an empty url, else one row appended under the next id; `SaveAppendsOneRow` and `SaveThenGet` state its effect |
| DownloadDb.Deleted | library/src/main/java/com/opensource/videoplayer/db/DownloadDBUtils.java:82-94 | `delete` on the tables: the url's rows removed; `DeleteRemovesExactlyMatching` states its effect |
| DownloadDb.Updated | library/src/main/java/com/opensource/videoplayer/db/DownloadDBUtils.java:132-149 | `update` on the tables: the url's rows rewritten by `UpdatedRows`; `UpdateThenGet` and `UpdateKeepsKeys` state its effect |
| DownloadDb.CountUrlZero | library/src/main/java/com/opensource/videoplayer/db/DownloadDBUtils.java:87 | the count of rows of a url is zero exactly when no row has that url |
| DownloadDb.WithoutUrl | library/src/main/java/com/opensource/videoplayer/db/DownloadDBUtils.java:87 | the rows left by a delete plus the count of those removed give the original number |
| DownloadDb.WithoutUrlMembers | library/src/main/java/com/opensource/videoplayer/db/DownloadDBUtils.java:87 | a row survives a delete exactly when it was there and has another url |
| DownloadDb.WithoutUrlKeepsOrder | library/src/main/java/com/opensource/videoplayer/db/DownloadDBUtils.java:87 | the surviving rows keep their increasing id order |
| DownloadDb.FirstIndexWithUrl | library/src/main/java/com/opensource/videoplayer/db/DownloadDBUtils.java:104-108 | the position `moveToFirst` reaches holds the url and no earlier row does; none exactly when no row matches |
| DownloadDb.UpdatedRows | library/src/main/java/com/opensource/videoplayer/db/DownloadDBUtils.java:137-142 | `update` keeps the number of rows, rewrites each row of the url and leaves every other row as it was |
| DownloadDb.SaveRejectsMissingUrl | library/src/main/java/com/opensource/videoplayer/db/DownloadDBUtils.java:51-54 | a null log or an empty url returns -1 and leaves both tables unchanged |
| DownloadDb.CountAppend | library/src/main/java/com/opensource/videoplayer/db/DownloadDBUtils.java:64 | appending a row raises the count of its url by one and of other urls by none |
| DownloadDb.SaveAppendsOneRow | library/src/main/java/com/opensource/videoplayer/db/DownloadDBUtils.java:57-66 | exactly one row with the log's url, sizes and saved file is appended under the next id, even when the url has rows already; earlier rows and the history are kept |
| DownloadDb.SaveThenGet | library/src/main/java/com/opensource/videoplayer/db/DownloadDBUtils.java:108-119 | after saving a log whose url had no row, the lookup returns that row |
| DownloadDb.DeleteRemovesExactlyMatching | library/src/main/java/com/opensource/videoplayer/db/DownloadDBUtils.java:82-94 | afterwards no row has the url, the number removed is the count of the url, and every other row stays |
| DownloadDb.UpdateThenGet | library/src/main/java/com/opensource/videoplayer/db/DownloadDBUtils.java:132-149 | the lookup after an update returns that url's first row, rewritten, or nothing when there was none |
| DownloadDb.UpdateKeepsKeys | library/src/main/java/com/opensource/videoplayer/db/DownloadDBUtils.java:138-142 | `update` keeps every row's id and url and the count of every url |
| DownloadDb.UpdateOverrides | library/src/main/java/com/opensource/videoplayer/db/DownloadDBUtils.java:139-142 | a later update of the same url fully overwrites an earlier one |
| DownloadDb.SaveKeepsValid | library/src/main/java/com/opensource/videoplayer/db/DownloadDBUtils.java:64 | inserts keep ids increasing and below the next id |
| DownloadDb.DeleteKeepsValid | library/src/main/java/com/opensource/videoplayer/db/DownloadDBUtils.java:87 | deletes keep ids increasing and below the next id |
| DownloadDb.UpdateKeepsValid | library/src/main/java/com/opensource/videoplayer/db/DownloadDBUtils.java:142 | updates keep ids increasing and below the next id |
| DownloadDb.Ledger.Save | library/src/main/java/com/opensource/videoplayer/db/DownloadDBUtils.java:51-74 | the tables become `Saved` of the old tables, and the id returned is -1 or the new row's id |
| DownloadDb.Ledger.Delete | library/src/main/java/com/opensource/videoplayer/db/DownloadDBUtils.java:82-94 | the rows of the url are removed and their count is returned |
| DownloadDb.Ledger.GetLogByUrl | library/src/main/java/com/opensource/videoplayer/db/DownloadDBUtils.java:102-125 | null exactly when no row matches, else a new log holding the first matching row's fields |
| DownloadDb.Ledger.Update | library/src/main/java/com/opensource/videoplayer/db/DownloadDBUtils.java:132-149 | the rows of the log's url are rewritten and their count is returned |
| DownloadDb.Ledger.SaveHistory | library/src/main/java/com/opensource/videoplayer/Downloader.java:120 | one history entry is appended and the in-progress rows are untouched |
| FileNames.ResolveFileName | library/src/main/java/com/opensource/videoplayer/Downloader.java:389-409 | `getFileName`: the url's last segment when non-empty, else `NameFromHeaders`; the `NameFrom*`, `NameFallsBackToFresh` and `NullKeyThrows` lemmas state its cases |
| FileNames.NameFromHeaders | library/src/main/java/com/opensource/videoplayer/Downloader.java:392-405 | the header loop: the first content-disposition header whose lowered value matches `filename=` gives the name, a null key throws, and the end of the headers gives the fresh name plus the suffix |
| FileNames.DispositionName | library/src/main/java/com/opensource/videoplayer/Downloader.java:396-401 | a header with a non-null key offers a name exactly when its key lowers to `content-disposition` and its lowered value has a `filename=` capture |
| FileNames.FilenameToken | library/src/main/java/com/opensource/videoplayer/Downloader.java:398-400 | `.*filename=(.*)` matches exactly when `filename=` occurs, and it captures the text after the last occurrence |
| FileNames.NameFromUrlSegment | library/src/main/java/com/opensource/videoplayer/Downloader.java:390-392 | a non-empty last url segment is the name; it holds no `/` and ends the url |
| FileNames.NameFromFirstDisposition | library/src/main/java/com/opensource/videoplayer/Downloader.java:393-401 | the first content-disposition header with a `filename=` names the file |
| FileNames.NameFallsBackToFresh | library/src/main/java/com/opensource/videoplayer/Downloader.java:404 | without a usable header, the generated name plus the default suffix is used |
| FileNames.NullKeyThrows | library/src/main/java/com/opensource/videoplayer/Downloader.java:397 | a null header key before any usable header throws a NullPointerException |
| ChunkLoop.Step | library/src/main/java/com/opensource/videoplayer/Downloader.java:269-275 | one pass of the loop: the chunk written at the file pointer, the downloaded size grown by its length, the url's rows rewritten, one callback with a listener; `StepParts` lists the parts |
| ChunkLoop.Steps | library/src/main/java/com/opensource/videoplayer/Downloader.java:268-276 | the passes over the chunks read, in order; the `Steps*` lemmas below state what they do to the size, the file, the rows and the trace |
| ChunkLoop.ConcatLength | library/src/main/java/com/opensource/videoplayer/Downloader.java:269 | the bytes written are as many as the chunks hold |
| ChunkLoop.StepsAdvance | library/src/main/java/com/opensource/videoplayer/Downloader.java:268-270 | the loop advances the downloaded size and the file pointer by the bytes read |
| ChunkLoop.ChunksRead | library/src/main/java/com/opensource/videoplayer/Downloader.java:268 | the loop reads the chunks before the stop is seen, else all of them |
| ChunkLoop.StepsWriteContiguously | library/src/main/java/com/opensource/videoplayer/Downloader.java:266-269 | the loop writes the same contents as one write of all the chunks at the start offset |
| ChunkLoop.StepsFileContents | library/src/main/java/com/opensource/videoplayer/Downloader.java:266-269 | the bytes before the offset are unchanged and the chunks follow it in order |
| ChunkLoop.StepsRows | library/src/main/java/com/opensource/videoplayer/Downloader.java:270-272 | the loop adds and removes no row, and the url's rows end up carrying the final size |
| ChunkLoop.ProgressEvents | library/src/main/java/com/opensource/videoplayer/Downloader.java:273-275 | one callback per chunk |
| ChunkLoop.ProgressEventAt | library/src/main/java/com/opensource/videoplayer/Downloader.java:274 | the k-th callback carries the size reached after the k-th chunk and the total size |
| ChunkLoop.StepsTrace | library/src/main/java/com/opensource/videoplayer/Downloader.java:273-275 | no callback without a listener; with one, exactly the progress events in order |
| DownloadSpec.JoinPath | library/src/main/java/com/opensource/videoplayer/Downloader.java:154-156 | `new File(folder, name)`: the name alone without a folder, else folder, `/` and name; `JoinPathSplits` reads both back |
| DownloadSpec.ParentPath | library/src/main/java/com/opensource/videoplayer/Downloader.java:218 | `getParentFile`, as the text before the last `/`; `PathSplits` states what it means |
| DownloadSpec.BaseName | library/src/main/java/com/opensource/videoplayer/Downloader.java:219 | `getName`, as the text after the last `/`; `PathSplits` states what it means |
| DownloadSpec.JoinPathSplits | library/src/main/java/com/opensource/videoplayer/Downloader.java:154-156 | for a name without `/`, the parent and the name of the joined path are the folder and the name |
| DownloadSpec.PathSplits | library/src/main/java/com/opensource/videoplayer/Downloader.java:217-219 | no parent exactly when the path has no `/` (the path is then its own name), else the path is parent, `/` and name; the name is a suffix without `/` |
| DownloadSpec.PathRoundTrip | library/src/main/java/com/opensource/videoplayer/Downloader.java:217-219 | any path is its parent joined with its name |
| DownloadSpec.RangeHeader | library/src/main/java/com/opensource/videoplayer/Downloader.java:244 | the `Range` value `bytes=<start>-<end>`; `DownloadProperties.RangeHeaderRoundTrip` reads both numbers back |
| DownloadSpec.NewLog | library/src/main/java/com/opensource/videoplayer/Downloader.java:159 | the log `new DownloadLog(url, 0, mFileSize, path)` creates: id 0, nothing downloaded, the content length as total, the path as saved file, the flag clear |
| DownloadSpec.ChosenName | library/src/main/java/com/opensource/videoplayer/Downloader.java:151-157 | the explicit file name when it is not empty, else the name `getFileName` resolves or its exception |
| DownloadSpec.Resumed | library/src/main/java/com/opensource/videoplayer/Downloader.java:216-220 | the fields a resume sets from the stored log: total size, saved file, its parent folder and its name; `ResumeAdoptsStoredLog` states the run from there |
| DownloadSpec.DownloadRun | library/src/main/java/com/opensource/videoplayer/Downloader.java:108-127 | `download` as a function of the state: the lock check, then with resume the ledger lookup that promotes a complete row or adopts an incomplete one, then `ProceedRun`; the lemmas of `DownloadProperties` state its cases |
| DownloadSpec.PromoteRun | library/src/main/java/com/opensource/videoplayer/Downloader.java:117-125 | a complete row moved to history, both flags set and the saved file returned; `CompleteRowPromoted` states it |
| DownloadSpec.ProceedRun | library/src/main/java/com/opensource/videoplayer/Downloader.java:129-220 | an already finished download returns its file, no log starts fresh, a log resumes |
| DownloadSpec.FreshRun | library/src/main/java/com/opensource/videoplayer/Downloader.java:141-214 | the metadata request and its error cases, then the file name and path; `FreshRejectsBadResponse` and `FreshChoosesPath` state them |
| DownloadSpec.FreshNamed | library/src/main/java/com/opensource/videoplayer/Downloader.java:159-214 | the new log saved with resume, then finished at once for a zero length or locked, the file pre-sized and transferred; `FreshEmptyFinishes` and `FreshTransfers` state them |
| DownloadSpec.ResumeRun | library/src/main/java/com/opensource/videoplayer/Downloader.java:215-220 | the stored log's size and saved file adopted, or a NullPointerException without a saved file; `ResumeAdoptsStoredLog` and `ResumeWithoutFileThrows` state them |
| DownloadSpec.TransferRun | library/src/main/java/com/opensource/videoplayer/Downloader.java:222-308 | the first callback, the ranged request, the chunk loop and the unlock; the `Transfer*` lemmas state its effects |
| DownloadSpec.StreamRun | library/src/main/java/com/opensource/videoplayer/Downloader.java:264-281 | the chunk loop from the downloaded size until the end, a stop or a broken stream, then the finished flag; `StreamStepsFacts`, `StreamStepsFile` and `StreamOutcome` state it |
| DownloadSpec.Stopped | library/src/main/java/com/opensource/videoplayer/Downloader.java:323-328 | the state after `stop()`: the flag set and the log unlocked; `Downloader.Stop` is proved to produce it |
| DownloadProperties.StartsFresh | library/src/main/java/com/opensource/videoplayer/Downloader.java:108-141 | the states a call starts a fresh download from: unlocked, not finished, and no stored row (with resume) or no log (without) |
| DownloadProperties.LockedCallChangesNothing | library/src/main/java/com/opensource/videoplayer/Downloader.java:109-112 | while the log is locked a call returns the saved file and changes no field, row or file |
| DownloadProperties.CompleteRowPromoted | library/src/main/java/com/opensource/videoplayer/Downloader.java:114-126 | a complete first row is deleted along with every other row of the url and added to history; both flags are set and the saved file is returned without a request |
| DownloadProperties.FreshWithoutLog | library/src/main/java/com/opensource/videoplayer/Downloader.java:113-141 | with no log to resume, the call is a fresh download with the stop flag cleared |
| DownloadProperties.StoredRowResumed | library/src/main/java/com/opensource/videoplayer/Downloader.java:115-127 | an incomplete first row replaces the log in memory and is resumed |
| DownloadProperties.FreshRejectsBadResponse | library/src/main/java/com/opensource/videoplayer/Downloader.java:143-186 | an unreachable server, a status other than 200 or a negative length fails the call with the matching error, and no log, row or file appears |
| DownloadProperties.FreshChoosesPath | library/src/main/java/com/opensource/videoplayer/Downloader.java:145-157 | the file size becomes the content length, and the saved file becomes the given or resolved name inside the save folder |
| DownloadProperties.FreshEmptyFinishes | library/src/main/java/com/opensource/videoplayer/Downloader.java:159-171 | a zero length returns at once: the new log goes to history, no url row is left when resume is on, both flags are set and no file changes |
| DownloadProperties.FreshTransfers | library/src/main/java/com/opensource/videoplayer/Downloader.java:159-198 | a positive length locks the new log, saves one row only when resume is on and the url is non-empty, sizes the file and transfers |
| DownloadProperties.PreparedLocksAndSizes | library/src/main/java/com/opensource/videoplayer/Downloader.java:194-198 | before the transfer the log is locked and the file has the content length |
| DownloadProperties.ResumeAdoptsStoredLog | library/src/main/java/com/opensource/videoplayer/Downloader.java:215-244 | resuming takes the total size, saved file, folder and file name from the stored log, starts the transfer with the stored log, ledger and files as they are (so, unlike the fresh path at line 172, it takes no lock), ends with the log unlocked, and requests the range from the downloaded size to the total size |
| DownloadProperties.ResumeWithoutFileThrows | library/src/main/java/com/opensource/videoplayer/Downloader.java:216-217 | a stored log without a saved file throws before any request |
| DownloadProperties.RangeHeaderRoundTrip | library/src/main/java/com/opensource/videoplayer/Downloader.java:244 | the Range header is `bytes=` followed by the start and end offsets, which read back |
| DownloadProperties.StreamStepsFacts | library/src/main/java/com/opensource/videoplayer/Downloader.java:268-276 | the chunks before the stop are read, the size grows by their bytes, the url's rows carry the final size, and each chunk makes one callback |
| DownloadProperties.StreamStepsFile | library/src/main/java/com/opensource/videoplayer/Downloader.java:264-269 | the chunks are written back to back from the downloaded size, and the bytes before it are kept |
| DownloadProperties.StreamOutcome | library/src/main/java/com/opensource/videoplayer/Downloader.java:268-287 | the stop flag is set exactly when the stop was seen; the call fails exactly when the stream broke first; a returning call is finished exactly when the size reached the total; the log is always unlocked |
| DownloadProperties.TransferReleasesLog | library/src/main/java/com/opensource/videoplayer/Downloader.java:277-285 | every transfer ends with the log unlocked and its fields other than the size unchanged; a returning call yields the saved file |
| DownloadProperties.TransferKeepsRows | library/src/main/java/com/opensource/videoplayer/Downloader.java:268-287 | a transfer adds and deletes no row, keeps every url's count and leaves the history alone |
| DownloadProperties.TransferRequestsRange | library/src/main/java/com/opensource/videoplayer/Downloader.java:222-244 | the first callback (with a listener) and then the ranged request open every transfer's trace |
| DownloadProperties.TransferTouchesOnlyUrlRows | library/src/main/java/com/opensource/videoplayer/Downloader.java:270-272 | a transfer keeps every row's id and url and leaves rows of other urls unchanged |
| DownloadProperties.TransferRewritesFirstRow | library/src/main/java/com/opensource/videoplayer/Downloader.java:272 | after at least one chunk, the url's first row carries the reached size and, as its saved file, the total size's text |
| DownloadProperties.ResumeAfterUpdateAdoptsSizeText | library/src/main/java/com/opensource/videoplayer/db/DownloadDBUtils.java:141 | the next resumed call takes the total size's text as its saved-file path |
| DownloadProperties.DownloadReleasesLock | library/src/main/java/com/opensource/videoplayer/Downloader.java:108-309 | a call that starts unlocked never ends with the log locked |
| DownloadProperties.FreshReleasesLock | library/src/main/java/com/opensource/videoplayer/Downloader.java:181-184 | a fresh download never ends locked, neither on the error paths nor after the transfer |
| DownloadProperties.StopIdempotent | library/src/main/java/com/opensource/videoplayer/Downloader.java:323-328 | stopping twice leaves the same state as stopping once, with the flag set and the log unlocked |
| Downloaders.Downloader.constructor | library/src/main/java/com/opensource/videoplayer/Downloader.java:73-80 | url, folder and name are stored, resuming is enabled, stopped, not finished, size 0, no log or saved file |
| Downloaders.Downloader.WithBreakPoint | library/src/main/java/com/opensource/videoplayer/Downloader.java:90-98 | the same state as the four-argument constructor, with resuming as given |
| Downloaders.Downloader.IsFinished | library/src/main/java/com/opensource/videoplayer/Downloader.java:316-318 | returns the finished flag |
| Downloaders.Downloader.IsStop | library/src/main/java/com/opensource/videoplayer/Downloader.java:334-336 | returns the stop flag |
| Downloaders.Downloader.GetFileSize | library/src/main/java/com/opensource/videoplayer/Downloader.java:343-345 | returns the file size |
| Downloaders.Downloader.Stop | library/src/main/java/com/opensource/videoplayer/Downloader.java:323-328 | sets the flag, unlocks the log (if any) and changes nothing else; the new state is `Stopped` of the old one |
| Downloaders.Downloader.GetFileName | library/src/main/java/com/opensource/videoplayer/Downloader.java:389-409 | the header loop returns exactly `ResolveFileName` |
| Downloaders.Downloader.Download | library/src/main/java/com/opensource/videoplayer/Downloader.java:108-309 | the new state, outcome and trace are exactly `DownloadRun` of the old state |
| Downloaders.Downloader.Promote | library/src/main/java/com/opensource/videoplayer/Downloader.java:117-125 | equals `PromoteRun`, and a null saved file throws |
| Downloaders.Downloader.Proceed | library/src/main/java/com/opensource/videoplayer/Downloader.java:129-220 | equals `ProceedRun`: finished, fresh or resumed |
| Downloaders.Downloader.StartFresh | library/src/main/java/com/opensource/videoplayer/Downloader.java:141-214 | equals `FreshRun` |
| Downloaders.Downloader.CreateLog | library/src/main/java/com/opensource/videoplayer/Downloader.java:159-214 | equals `FreshNamed` |
| Downloaders.Downloader.PrepareFile | library/src/main/java/com/opensource/videoplayer/Downloader.java:194-198 | the log is locked and the file resized to the length; nothing else changes |
| Downloaders.Downloader.StartResume | library/src/main/java/com/opensource/videoplayer/Downloader.java:215-220 | equals `ResumeRun` |
| Downloaders.Downloader.Transfer | library/src/main/java/com/opensource/videoplayer/Downloader.java:222-308 | equals `TransferRun` |
| Downloaders.Downloader.ReadChunks | library/src/main/java/com/opensource/videoplayer/Downloader.java:264-281 | equals `StreamRun` |
| Downloaders.Downloader.ReadLoop | library/src/main/java/com/opensource/videoplayer/Downloader.java:268-276 | reads `ChunksRead` chunks; the stop flag is set exactly when the stop was seen; the log, rows, file and trace are those of `Steps` |
| Downloaders.Downloader.ReadChunk | library/src/main/java/com/opensource/videoplayer/Downloader.java:269-275 | one loop pass has the effect of one `Step` |
| Downloaders.Downloader.Advance | library/src/main/java/com/opensource/videoplayer/Downloader.java:268-276 | one pass and the following test of the stop flag keep the loop's state equal to `Steps` over one more chunk |
| Downloaders.Downloader.CheckStop | library/src/main/java/com/opensource/videoplayer/Downloader.java:268 | the stop flag tested before the next read is raised exactly when `stop` was called after this many chunks |
| Player.FormatDuration | library/src/main/java/com/opensource/videoplayer/VideoPlayer.java:235-247 | `formatDuration`: hours, minutes and seconds by Java's truncating division, and the layout without hours when they are zero; the `FormatDuration*` lemmas state its properties |
| Player.UpperChar | library/src/main/java/com/opensource/videoplayer/VideoPlayer.java:74-75 | `Character.toUpperCase` on the characters whose case maps reach an ASCII letter |
| Player.FoldChar | library/src/main/java/com/opensource/videoplayer/VideoPlayer.java:74-75 | `Character.toLowerCase` on the same characters, including the Kelvin sign and the dotted capital I |
| Player.CharsMatch | library/src/main/java/com/opensource/videoplayer/VideoPlayer.java:74-75 | the character test of `String.equalsIgnoreCase`: equal, equal upper cases, or equal lower cases of the upper cases; `AsciiCharMatch` characterises it on ASCII |
| Player.EqualsIgnoreCase | library/src/main/java/com/opensource/videoplayer/VideoPlayer.java:74-75 | `equalsIgnoreCase` with a non-null argument: the same length and matching characters throughout; `AsciiEqualsIgnoreCase` ties it to `Lower` |
| Player.StreamingScheme | library/src/main/java/com/opensource/videoplayer/VideoPlayer.java:73-79 | the constructor's test: a non-null scheme equal, ignoring case, to http, https, ftp or rtsp; `AsciiStreamingScheme` and the `StreamingScheme*` lemmas state it |
| Player.JavaDiv | library/src/main/java/com/opensource/videoplayer/VideoPlayer.java:236 | Java's `/` truncates toward zero: the remainder has the dividend's sign and is smaller than the divisor |
| Player.FormatDurationWholeSeconds | library/src/main/java/com/opensource/videoplayer/VideoPlayer.java:236-239 | `h*3600 + m*60 + s` equals `durationMs / 1000` with Java's division |
| Player.FormatDurationBounds | library/src/main/java/com/opensource/videoplayer/VideoPlayer.java:237-239 | for a non-negative input the minutes and seconds are in [0, 59] and the hours non-negative; a negative input gives parts in [-59, 0] |
| Player.FormatDurationUnique | library/src/main/java/com/opensource/videoplayer/VideoPlayer.java:237-239 | for a non-negative input, it is the only split with minutes and seconds in [0, 59] |
| Player.FormatDurationChoosesLayout | library/src/main/java/com/opensource/videoplayer/VideoPlayer.java:241-245 | the minutes:seconds layout is chosen exactly when the hours are zero, i.e. under one hour either way |
| Player.AsciiCharMatch | library/src/main/java/com/opensource/videoplayer/VideoPlayer.java:74-75 | an ASCII character matches a lower-case letter, ignoring case, exactly when it lowers to it |
| Player.AsciiEqualsIgnoreCase | library/src/main/java/com/opensource/videoplayer/VideoPlayer.java:74-75 | on ASCII text, `equalsIgnoreCase` against a lower-case word is lowering and comparing, in either order |
| Player.AsciiStreamingScheme | library/src/main/java/com/opensource/videoplayer/VideoPlayer.java:73-79 | an ASCII scheme keeps the spinner exactly when its lower-case form is http, https, ftp or rtsp |
| Player.StreamingSchemeIgnoresCase | library/src/main/java/com/opensource/videoplayer/VideoPlayer.java:74-75 | `HTTP` and `RtSp` keep the spinner |
| Player.StreamingSchemeLongS | library/src/main/java/com/opensource/videoplayer/VideoPlayer.java:74 | `httpſ` matches `https`, since the long s upper-cases to `S` |
| Player.StreamingSchemeRejects | library/src/main/java/com/opensource/videoplayer/VideoPlayer.java:73-79 | `file`, `content` and a null scheme hide the spinner |
| Player.ErrorReactionAsWritten | library/src/main/java/com/opensource/videoplayer/VideoPlayer.java:122-129 | `onError` as written: it throws a NullPointerException exactly when the always-set checker passes the guard and no listener is set; otherwise it notifies at most the set listener, with the error's two codes |
| Player.ErrorWithoutListenerThrows | library/src/main/java/com/opensource/videoplayer/VideoPlayer.java:125-126 | as written, an error without a listener throws a NullPointerException |
| Player.CompletionNotices | library/src/main/java/com/opensource/videoplayer/VideoPlayer.java:132-136 | the completion is notified exactly when a listener is set, and only to that listener |
| Player.ErrorNotices | library/src/main/java/com/opensource/videoplayer/VideoPlayer.java:125-126 | with the guard on the listener, the error is notified exactly when a listener is set, and only to that listener |
| Player.ErrorNoticesCorrectGuard | library/src/main/java/com/opensource/videoplayer/VideoPlayer.java:122-136 | the corrected `onError` agrees with the written one whenever a listener is set, and notifies exactly when `onCompletion` does |
| Player.VideoPlayer.constructor | library/src/main/java/com/opensource/videoplayer/VideoPlayer.java:73-79 | the spinner stays up with the check posted exactly for a streaming scheme |
| Player.VideoPlayer.SetPlayListener | library/src/main/java/com/opensource/videoplayer/VideoPlayer.java:142-144 | only the listener changes |
| Player.VideoPlayer.OnCompletion | library/src/main/java/com/opensource/videoplayer/VideoPlayer.java:132-136 | the completion notices are appended and nothing else changes |
| Player.VideoPlayer.OnError | library/src/main/java/com/opensource/videoplayer/VideoPlayer.java:122-129 | with the listener guard corrected (see Findings): the posted check is cancelled, the spinner hidden and a set listener notified (`ErrorNotices`); the error is reported unhandled. As written, the call throws when no listener is set (`ErrorReactionAsWritten`) |

## Left out

- HTTP connection setup, request headers, timeouts and header dumping (`Downloader.java:228-259`, `352-371`, `417-442`). Each response is an input of `Env` instead: the metadata response (unreachable, or status, content length and headers), the ranged body as a sequence of chunks, and whether the stream breaks after them.
- Closing streams, files and connections (`Downloader.java:187-192`, `205-214`, `288-307`). These have no effect on the modelled state.
- I/O errors from the file system are not modelled. `checkDownloadFolder` is not modelled (its folder creation and its exception, `Downloader.java:377-381`). `RandomAccessFile` never fails here. The only rejected seek is one to a negative offset, which the model reports as a failed transfer.
- Java leaves the bytes unspecified when `setLength` extends a file or a write lands past its end. The model writes zeros there.
- `java.io.File` path handling is modelled as plain text:
  - `new File(folder, name)` is folder + `/` + name;
  - `getParentFile` is the text before the last `/`;
  - `getName` is the text after the last `/`.

  Normalisation of repeated or trailing separators is not modelled.
- The Java regex engine (`Downloader.java:398`). The `.*filename=(.*)` match is stated directly as a string function, for header values without line terminators.
- `UUID.randomUUID` (`Downloader.java:404`) is a parameter, the fresh name.
- `toLowerCase(Locale.ENGLISH)` on header keys and values lowers only ASCII letters. `equalsIgnoreCase` covers the ASCII letters and the few non-ASCII characters whose case maps reach them, not all of Unicode.
- Concurrency: the background thread and `synchronized` (`Downloader.java:323-336`). A `stop()` from another thread is an input, the number of chunks read before the loop sees the flag.
- Java `int` overflow of sizes and offsets. All integers are unbounded.
- SQLite itself is not modelled: transactions, the schema, and DownloadDBHelper.java. A query's row order is taken to be insertion order.
- DownloadLogs.DownloadLog.Lock, DownloadLogs.DownloadLog.Unlock: `isLocked()`, `lock()` and `unlock()` are called at Downloader.java:109, 122, 172 and 326, but DownloadLog.java declares none of them. The model assumes a plain boolean flag. The flag is clear after either constructor. It is not stored in the ledger, so every log `getLogByUrl` returns has it clear. It is not part of `toString`. `LockedCallChangesNothing`, `DownloadReleasesLock` and the early return at line 109 rest on this assumption.
- DownloadTypes.RangeResponse: a `Stream` may hold an empty chunk, which `read(buffer)` (Downloader.java:268) never returns. It returns at least one byte or -1. For such a chunk the model records a ledger update and a progress callback with no progress, which the engine cannot produce.
- DownloadDb.Ledger.SaveHistory: `saveHistory` is called at Downloader.java:120 and 167, but its body is not part of this model. The history table (DownloadDBHelper.java:48-49) has the columns `_id`, `url`, `total_size`, `finished_time` and `saved_file`; the model assumes `saveHistory` writes the log's url, total size and saved file into them. It leaves out `finished_time`, a clock value, and the history's own autoincrement id.
- DownloadDb.Ledger.Update: requires a non-null url. Android refuses to bind a null argument, and every call from the engine passes a log carrying the downloader's url.
- StringUtils is not part of this model. `isEmpty` is taken to mean null or of length zero.
- Resource strings: `details_ms`, `details_hms` and the string formatting in `formatDuration` (`VideoPlayer.java:242-244`). The model returns the chosen layout with its numbers.
- The polling runnable's own re-posting (`VideoPlayer.java:54-62`) is not modelled. Also left out are `onPause`, `onResume`, `onDestroy`, the `VideoView` and `MediaController` calls, the commented-out bookmark code and `getCursorInteger`. These are Android view plumbing.
- VideoPlayerActivity.java, VideoPlayerMdoel.java and NetworkManager.java are UI, a commented-out coordinator, and connectivity broadcasts. The demo's MainActivity.java is left out as well. DownloadListener.java and PlayListener.java appear only as the shape of the recorded callbacks.

## Findings

| source | as written | input that shows it | evidently intended | confidence | as-written member | corrected member |
|---|---|---|---|---|---|---|
| library/src/main/java/com/opensource/videoplayer/VideoPlayer.java:125 | `onError` guards the listener call with a test of `mPlayingChecker`, a final field that is never null | a media-player error before `setPlayListener` was called, or after it was called with null: the listener call throws a NullPointerException | test `mPlayListener`, as `onCompletion` does at line 133 | high; not executed | Player.ErrorReactionAsWritten, Player.ErrorWithoutListenerThrows | Player.ErrorNotices, Player.VideoPlayer.OnError |
