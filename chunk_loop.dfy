/**
 * The read/write loop of `Downloader.download` as a function: each chunk
 * read is written at the current file position, the downloaded size grows
 * by its length, the ledger rows of the url are rewritten, and (with a
 * listener) one progress callback is recorded.
 */
module ChunkLoop {
  import opened Wrappers
  import opened Files
  import opened DownloadDb
  import opened DownloadTypes

  /** The number of bytes in `chunks`. */
  function TotalLength(chunks: seq<seq<byte>>): nat
    decreases |chunks|
  {
    if chunks == [] then 0 else TotalLength(chunks[..|chunks| - 1]) + |chunks[|chunks| - 1]|
  }

  /** The bytes of `chunks`, in order. */
  function Concat(chunks: seq<seq<byte>>): seq<byte>
    decreases |chunks|
  {
    if chunks == [] then [] else Concat(chunks[..|chunks| - 1]) + chunks[|chunks| - 1]
  }

  lemma {:induction false} ConcatLength(chunks: seq<seq<byte>>)
    ensures |Concat(chunks)| == TotalLength(chunks)
    decreases |chunks|
  {
    if chunks != [] {
      ConcatLength(chunks[..|chunks| - 1]);
    }
  }

  /** What the loop carries from one iteration to the next. */
  datatype Progress = Progress(
    downloadedSize: int,  // the log's downloaded size
    position: nat,        // the file pointer
    rows: seq<Row>,       // the ledger's in-progress rows
    file: seq<byte>,      // the saved file's contents
    trace: seq<Event>)    // callbacks so far

  /** One iteration, for a chunk that `read` returned. */
  function Step(p: Progress, url: string, totalSize: int, listener: bool, chunk: seq<byte>): Progress {
    var size := p.downloadedSize + |chunk|;
    Progress(
      size,
      p.position + |chunk|,
      UpdatedRows(p.rows, url, size, totalSize),
      WriteAt(p.file, p.position, chunk),
      if listener then p.trace + [ProgressUpdated(size, totalSize)] else p.trace)
  }

  /** Iterations over `chunks`, in order. */
  function Steps(p: Progress, url: string, totalSize: int, listener: bool, chunks: seq<seq<byte>>): Progress
    decreases |chunks|
  {
    if chunks == [] then p
    else Step(Steps(p, url, totalSize, listener, chunks[..|chunks| - 1]), url, totalSize, listener, chunks[|chunks| - 1])
  }

  /** The downloaded size and the file pointer both advance by the bytes read. */
  lemma {:induction false} StepsAdvance(p: Progress, url: string, totalSize: int, listener: bool, chunks: seq<seq<byte>>)
    ensures var r := Steps(p, url, totalSize, listener, chunks);
      && r.downloadedSize == p.downloadedSize + TotalLength(chunks)
      && r.position == p.position + TotalLength(chunks)
    decreases |chunks|
  {
    if chunks != [] {
      StepsAdvance(p, url, totalSize, listener, chunks[..|chunks| - 1]);
    }
  }

  /** One more chunk is one more step. */
  lemma StepsSnoc(p: Progress, url: string, totalSize: int, listener: bool, chunks: seq<seq<byte>>, i: nat)
    requires i < |chunks|
    ensures Steps(p, url, totalSize, listener, chunks[..i + 1])
         == Step(Steps(p, url, totalSize, listener, chunks[..i]), url, totalSize, listener, chunks[i])
  {
    assert chunks[..i + 1][..i] == chunks[..i];
  }

  /** The parts of one step, one by one. */
  lemma StepParts(p: Progress, url: string, totalSize: int, listener: bool, chunk: seq<byte>)
    ensures var r := Step(p, url, totalSize, listener, chunk);
      && r.downloadedSize == p.downloadedSize + |chunk|
      && r.position == p.position + |chunk|
      && r.rows == UpdatedRows(p.rows, url, p.downloadedSize + |chunk|, totalSize)
      && r.file == WriteAt(p.file, p.position, chunk)
      && r.trace == if listener then p.trace + [ProgressUpdated(p.downloadedSize + |chunk|, totalSize)] else p.trace
  {
  }

  /** Whether the stop flag is seen before the read after the last chunk. */
  predicate StopSeen(available: nat, stopAt: Option<nat>) {
    stopAt.Some? && stopAt.value <= available
  }

  /** How many chunks the loop reads: the flag is checked before every read. */
  function ChunksRead(available: nat, stopAt: Option<nat>): (n: nat)
    ensures n <= available
    ensures StopSeen(available, stopAt) ==> n == stopAt.value
    ensures !StopSeen(available, stopAt) ==> n == available
  {
    if StopSeen(available, stopAt) then stopAt.value else available
  }

  // ---------------------------------------------------------------------
  // Properties
  // ---------------------------------------------------------------------

  /** The chunked writes leave the file exactly as one write of all bytes at the start position. */
  lemma {:induction false} StepsWriteContiguously(p: Progress, url: string, totalSize: int, listener: bool, chunks: seq<seq<byte>>)
    ensures Steps(p, url, totalSize, listener, chunks).file == WriteAt(p.file, p.position, Concat(chunks))
    decreases |chunks|
  {
    if chunks == [] {
      assert WriteAt(p.file, p.position, []) == p.file;
    } else {
      var init := chunks[..|chunks| - 1];
      StepsWriteContiguously(p, url, totalSize, listener, init);
      StepsAdvance(p, url, totalSize, listener, init);
      ConcatLength(init);
      WriteAtContiguous(p.file, p.position, Concat(init), chunks[|chunks| - 1]);
    }
  }

  /**
   * Bytes before the start position are unchanged, and the bytes from it on
   * are the chunks' bytes in order.
   */
  lemma StepsFileContents(p: Progress, url: string, totalSize: int, listener: bool, chunks: seq<seq<byte>>)
    requires p.position <= |p.file|
    ensures var r := Steps(p, url, totalSize, listener, chunks);
      && |r.file| == Max(|p.file|, p.position + TotalLength(chunks))
      && r.file[..p.position] == p.file[..p.position]
      && r.file[p.position..p.position + TotalLength(chunks)] == Concat(chunks)
  {
    StepsWriteContiguously(p, url, totalSize, listener, chunks);
    ConcatLength(chunks);
    StepsAdvance(p, url, totalSize, listener, chunks);
    var r := Steps(p, url, totalSize, listener, chunks);
    var c := Concat(chunks);
    assert r.file[..p.position] == p.file[..p.position];
    assert r.file[p.position..p.position + |c|] == c;
  }

  /**
   * The loop rewrites the url's rows and no other rows; the last rewrite
   * carries the final downloaded size (so no row is added or removed).
   */
  lemma {:induction false} StepsRows(p: Progress, url: string, totalSize: int, listener: bool, chunks: seq<seq<byte>>)
    ensures var r := Steps(p, url, totalSize, listener, chunks);
      r.rows == if chunks == [] then p.rows else UpdatedRows(p.rows, url, r.downloadedSize, totalSize)
    decreases |chunks|
  {
    if chunks != [] {
      var init := chunks[..|chunks| - 1];
      StepsRows(p, url, totalSize, listener, init);
      var q := Steps(p, url, totalSize, listener, init);
      LastStepRows(p, url, totalSize, listener, chunks);
      if init != [] {
        RewriteAgain(p.rows, q.rows, url, q.downloadedSize, q.downloadedSize + |chunks[|chunks| - 1]|, totalSize);
      }
    }
  }

  /** The last chunk's step rewrites the rows left by the others, with the final size. */
  lemma LastStepRows(p: Progress, url: string, totalSize: int, listener: bool, chunks: seq<seq<byte>>)
    requires chunks != []
    ensures var q := Steps(p, url, totalSize, listener, chunks[..|chunks| - 1]);
      var r := Steps(p, url, totalSize, listener, chunks);
      && r.downloadedSize == q.downloadedSize + |chunks[|chunks| - 1]|
      && r.rows == UpdatedRows(q.rows, url, r.downloadedSize, totalSize)
  {
  }

  /** Rewriting rows that were already rewritten is rewriting the originals with the new size. */
  lemma RewriteAgain(rows: seq<Row>, mid: seq<Row>, url: string, d1: int, d2: int, totalSize: int)
    requires mid == UpdatedRows(rows, url, d1, totalSize)
    ensures UpdatedRows(mid, url, d2, totalSize) == UpdatedRows(rows, url, d2, totalSize)
  {
    UpdateOverrides(rows, url, d1, totalSize, d2, totalSize);
  }

  /** The callbacks one listener receives for `chunks` read from `start` on. */
  function ProgressEvents(start: int, totalSize: int, chunks: seq<seq<byte>>): (r: seq<Event>)
    ensures |r| == |chunks|
    decreases |chunks|
  {
    if chunks == [] then []
    else
      var init := chunks[..|chunks| - 1];
      ProgressEvents(start, totalSize, init) + [ProgressUpdated(start + TotalLength(chunks), totalSize)]
  }

  /** The k-th callback carries the size reached after the k-th chunk. */
  lemma {:induction false} ProgressEventAt(start: int, totalSize: int, chunks: seq<seq<byte>>, k: nat)
    requires k < |chunks|
    ensures ProgressEvents(start, totalSize, chunks)[k] == ProgressUpdated(start + TotalLength(chunks[..k + 1]), totalSize)
    decreases |chunks|
  {
    var init := chunks[..|chunks| - 1];
    if k < |init| {
      ProgressEventAt(start, totalSize, init, k);
      assert chunks[..k + 1] == init[..k + 1];
    } else {
      assert chunks[..k + 1] == chunks;
    }
  }

  /**
   * Without a listener nothing is recorded; with one, exactly one
   * callback per chunk, in order.
   */
  lemma {:induction false} StepsTrace(p: Progress, url: string, totalSize: int, listener: bool, chunks: seq<seq<byte>>)
    ensures var r := Steps(p, url, totalSize, listener, chunks);
      r.trace == p.trace + (if listener then ProgressEvents(p.downloadedSize, totalSize, chunks) else [])
    decreases |chunks|
  {
    if chunks != [] {
      StepsTrace(p, url, totalSize, listener, chunks[..|chunks| - 1]);
      StepsAdvance(p, url, totalSize, listener, chunks[..|chunks| - 1]);
    }
  }
}
