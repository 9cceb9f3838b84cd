/**
 * The progress ledger: the `download_log` table of in-progress downloads,
 * keyed by url, and the append-only table of finished downloads.  The
 * SQLite engine is replaced by a sequence of rows in insertion order.
 */
module DownloadDb {
  import opened Wrappers
  import opened Text
  import opened DownloadLogs

  /** One row of `download_log(_id, url, downloaded_size, total_size, saved_file)`. */
  datatype Row = Row(id: int, url: string, downloadedSize: int, totalSize: int, savedFile: Option<string>)

  /** One row of the download history, without its id and its finishing time (a clock value). */
  datatype HistoryRow = HistoryRow(url: Option<string>, totalSize: int, savedFile: Option<string>)

  /** Both tables, and the next id the autoincrement key hands out. */
  datatype Table = Table(rows: seq<Row>, history: seq<HistoryRow>, nextId: int)

  /** Ids are handed out in increasing order and are never reused. */
  ghost predicate TableValid(t: Table) {
    && t.nextId >= 1
    && (forall i, j :: 0 <= i < j < |t.rows| ==> t.rows[i].id < t.rows[j].id)
    && (forall i :: 0 <= i < |t.rows| ==> 1 <= t.rows[i].id < t.nextId)
  }

  // ---------------------------------------------------------------------
  // Row-level queries
  // ---------------------------------------------------------------------

  /** The number of rows `WHERE url = ?` selects. */
  function CountUrl(rows: seq<Row>, url: string): (n: nat)
    ensures n <= |rows|
    decreases |rows|
  {
    if rows == [] then 0
    else (if rows[0].url == url then 1 else 0) + CountUrl(rows[1..], url)
  }

  /** No row is counted exactly when no row has the url. */
  lemma {:induction false} CountUrlZero(rows: seq<Row>, url: string)
    ensures CountUrl(rows, url) == 0 <==> forall i :: 0 <= i < |rows| ==> rows[i].url != url
    decreases |rows|
  {
    if rows != [] {
      CountUrlZero(rows[1..], url);
      assert forall i :: 1 <= i < |rows| ==> rows[i] == rows[1..][i - 1];
    }
  }

  /** The rows left by `DELETE ... WHERE url = ?`, in their order. */
  function WithoutUrl(rows: seq<Row>, url: string): (r: seq<Row>)
    ensures |r| + CountUrl(rows, url) == |rows|
    decreases |rows|
  {
    if rows == [] then []
    else if rows[0].url == url then WithoutUrl(rows[1..], url)
    else [rows[0]] + WithoutUrl(rows[1..], url)
  }

  /** The position of the first row whose url matches, in insertion order. */
  function FirstIndexWithUrl(rows: seq<Row>, url: string): (r: Option<nat>)
    ensures r.Some? ==> r.value < |rows| && rows[r.value].url == url
    ensures r.Some? ==> forall j :: 0 <= j < r.value ==> rows[j].url != url
    ensures r.None? <==> forall j :: 0 <= j < |rows| ==> rows[j].url != url
    decreases |rows|
  {
    if rows == [] then None
    else if rows[0].url == url then Some(0)
    else match FirstIndexWithUrl(rows[1..], url)
      case None => None
      case Some(k) => Some(k + 1)
  }

  /** The row a cursor positioned with `moveToFirst` reads. */
  function FirstWithUrl(rows: seq<Row>, url: string): Option<Row> {
    match FirstIndexWithUrl(rows, url)
      case None => None
      case Some(k) => Some(rows[k])
  }

  /**
   * What `update` writes into a matching row: the two sizes, and, in the
   * `saved_file` column, the total size (rendered as text by the column's
   * TEXT affinity) in place of the path.
   */
  function Rewritten(row: Row, downloadedSize: int, totalSize: int): Row {
    row.(downloadedSize := downloadedSize, totalSize := totalSize, savedFile := Some(Decimal(totalSize)))
  }

  /** The rows after `UPDATE ... WHERE url = ?`. */
  function UpdatedRows(rows: seq<Row>, url: string, downloadedSize: int, totalSize: int): (r: seq<Row>)
    ensures |r| == |rows|
    ensures forall i {:trigger r[i]} :: 0 <= i < |rows| ==>
      r[i] == if rows[i].url == url then Rewritten(rows[i], downloadedSize, totalSize) else rows[i]
    decreases |rows|
  {
    if rows == [] then []
    else
      [if rows[0].url == url then Rewritten(rows[0], downloadedSize, totalSize) else rows[0]]
      + UpdatedRows(rows[1..], url, downloadedSize, totalSize)
  }

  /** The log `getLogByUrl` builds from a row; a fresh object is never locked. */
  function RowLog(row: Row): LogView {
    LogView(row.id, Some(row.url), row.downloadedSize, row.totalSize, row.savedFile, false)
  }

  /** The history row recorded for a finished download. */
  function HistoryOf(v: LogView): HistoryRow {
    HistoryRow(v.url, v.totalSize, v.savedFile)
  }

  // ---------------------------------------------------------------------
  // Table-level operations
  // ---------------------------------------------------------------------

  /** The table after `save(log)`; `None` stands for a null log. */
  function Saved(t: Table, log: Option<LogView>): Table {
    if log.None? || IsEmpty(log.value.url) then t
    else
      var v := log.value;
      t.(rows := t.rows + [Row(t.nextId, v.url.value, v.downloadedSize, v.totalSize, v.savedFile)],
         nextId := t.nextId + 1)
  }

  /** The id `save(log)` returns. */
  function SaveId(t: Table, log: Option<LogView>): int {
    if log.None? || IsEmpty(log.value.url) then -1 else t.nextId
  }

  function Deleted(t: Table, url: string): Table {
    t.(rows := WithoutUrl(t.rows, url))
  }

  function Updated(t: Table, url: string, downloadedSize: int, totalSize: int): Table {
    t.(rows := UpdatedRows(t.rows, url, downloadedSize, totalSize))
  }

  function WithHistory(t: Table, v: LogView): Table {
    t.(history := t.history + [HistoryOf(v)])
  }

  // ---------------------------------------------------------------------
  // Properties
  // ---------------------------------------------------------------------

  /** A null log or a log without url changes nothing and yields -1. */
  lemma SaveRejectsMissingUrl(t: Table, log: Option<LogView>)
    requires log.None? || IsEmpty(log.value.url)
    ensures Saved(t, log) == t && SaveId(t, log) == -1
  {
  }

  lemma {:induction false} CountAppend(rows: seq<Row>, row: Row, url: string)
    ensures CountUrl(rows + [row], url) == CountUrl(rows, url) + (if row.url == url then 1 else 0)
    decreases |rows|
  {
    if rows != [] {
      assert (rows + [row])[1..] == rows[1..] + [row];
      CountAppend(rows[1..], row, url);
    }
  }

  /**
   * `save` appends exactly one row holding the log's url, sizes and saved
   * file, under a new id, and leaves the earlier rows and the history as they
   * were; it adds the row even when one with the same url exists.
   */
  lemma SaveAppendsOneRow(t: Table, v: LogView)
    requires !IsEmpty(v.url)
    ensures var t' := Saved(t, Some(v));
      && |t'.rows| == |t.rows| + 1
      && t'.rows[..|t.rows|] == t.rows
      && t'.rows[|t.rows|] == Row(t.nextId, v.url.value, v.downloadedSize, v.totalSize, v.savedFile)
      && t'.history == t.history
      && CountUrl(t'.rows, v.url.value) == CountUrl(t.rows, v.url.value) + 1
      && SaveId(t, Some(v)) == t.nextId
  {
    CountAppend(t.rows, Row(t.nextId, v.url.value, v.downloadedSize, v.totalSize, v.savedFile), v.url.value);
  }

  /** After saving a log whose url had no row, the lookup finds exactly what was saved. */
  lemma SaveThenGet(t: Table, v: LogView)
    requires !IsEmpty(v.url)
    requires CountUrl(t.rows, v.url.value) == 0
    ensures FirstWithUrl(Saved(t, Some(v)).rows, v.url.value)
      == Some(Row(t.nextId, v.url.value, v.downloadedSize, v.totalSize, v.savedFile))
  {
    CountUrlZero(t.rows, v.url.value);
    var rows' := Saved(t, Some(v)).rows;
    var k := FirstIndexWithUrl(rows', v.url.value);
    assert rows'[|t.rows|].url == v.url.value;
    assert forall j :: 0 <= j < |t.rows| ==> rows'[j] == t.rows[j];
    assert k.Some?;
    assert k.value == |t.rows|;
  }

  /** `delete(url)` leaves no row for that url and keeps every other row. */
  lemma DeleteRemovesExactlyMatching(t: Table, url: string)
    ensures var t' := Deleted(t, url);
      && FirstWithUrl(t'.rows, url).None?
      && |t.rows| - |t'.rows| == CountUrl(t.rows, url)
      && (forall x :: x in t'.rows <==> x in t.rows && x.url != url)
      && t'.history == t.history && t'.nextId == t.nextId
  {
    var rows' := WithoutUrl(t.rows, url);
    forall x ensures x in rows' <==> x in t.rows && x.url != url {
      WithoutUrlMembers(t.rows, url, x);
    }
    forall j | 0 <= j < |rows'| ensures rows'[j].url != url {
      assert rows'[j] in rows';
    }
  }

  /** The lookup after `update` yields the first matching row, rewritten. */
  lemma UpdateThenGet(rows: seq<Row>, url: string, downloadedSize: int, totalSize: int)
    ensures FirstWithUrl(UpdatedRows(rows, url, downloadedSize, totalSize), url)
      == match FirstWithUrl(rows, url)
           case None => None
           case Some(row) => Some(Rewritten(row, downloadedSize, totalSize))
  {
    var rows' := UpdatedRows(rows, url, downloadedSize, totalSize);
    var k := FirstIndexWithUrl(rows, url);
    var k' := FirstIndexWithUrl(rows', url);
    assert forall j :: 0 <= j < |rows| ==> (rows'[j].url == url <==> rows[j].url == url);
    if k.Some? {
      assert rows'[k.value].url == url;
      assert k'.Some? && k'.value == k.value;
    } else {
      assert k'.None?;
    }
  }

  /** `update` returns the number of rows whose url matches, and that number does not change. */
  lemma UpdateKeepsKeys(rows: seq<Row>, url: string, u: string, downloadedSize: int, totalSize: int)
    ensures var rows' := UpdatedRows(rows, url, downloadedSize, totalSize);
      && (forall i :: 0 <= i < |rows| ==> rows'[i].id == rows[i].id && rows'[i].url == rows[i].url)
      && CountUrl(rows', u) == CountUrl(rows, u)
    decreases |rows|
  {
    if rows != [] {
      var rows' := UpdatedRows(rows, url, downloadedSize, totalSize);
      assert rows'[1..] == UpdatedRows(rows[1..], url, downloadedSize, totalSize);
      UpdateKeepsKeys(rows[1..], url, u, downloadedSize, totalSize);
    }
  }

  /** A later update of the same url overwrites an earlier one completely. */
  lemma UpdateOverrides(rows: seq<Row>, url: string, d1: int, t1: int, d2: int, t2: int)
    ensures UpdatedRows(UpdatedRows(rows, url, d1, t1), url, d2, t2) == UpdatedRows(rows, url, d2, t2)
  {
    var a := UpdatedRows(UpdatedRows(rows, url, d1, t1), url, d2, t2);
    var b := UpdatedRows(rows, url, d2, t2);
    assert |a| == |b|;
    forall i | 0 <= i < |a| ensures a[i] == b[i] {
    }
  }

  /** `WithoutUrl` keeps exactly the rows whose url differs. */
  lemma {:induction false} WithoutUrlMembers(rows: seq<Row>, url: string, x: Row)
    ensures x in WithoutUrl(rows, url) <==> x in rows && x.url != url
    decreases |rows|
  {
    if rows != [] {
      WithoutUrlMembers(rows[1..], url, x);
      assert x in rows <==> x == rows[0] || x in rows[1..];
    }
  }

  ghost predicate Increasing(rows: seq<Row>) {
    forall i, j :: 0 <= i < j < |rows| ==> rows[i].id < rows[j].id
  }

  lemma {:induction false} WithoutUrlKeepsOrder(rows: seq<Row>, url: string)
    requires Increasing(rows)
    ensures Increasing(WithoutUrl(rows, url))
    decreases |rows|
  {
    if rows != [] {
      var tl := rows[1..];
      assert Increasing(tl) by {
        forall i, j | 0 <= i < j < |tl| ensures tl[i].id < tl[j].id {
          assert tl[i] == rows[i + 1] && tl[j] == rows[j + 1];
        }
      }
      WithoutUrlKeepsOrder(tl, url);
      if rows[0].url != url {
        var rest := WithoutUrl(tl, url);
        var r := [rows[0]] + rest;
        assert r == WithoutUrl(rows, url);
        forall i, j | 0 <= i < j < |r| ensures r[i].id < r[j].id {
          if i == 0 {
            var x := rest[j - 1];
            assert x in rest;
            WithoutUrlMembers(tl, url, x);
            var k :| 0 <= k < |tl| && tl[k] == x;
            assert rows[k + 1] == x;
          } else {
            assert r[i] == rest[i - 1] && r[j] == rest[j - 1];
          }
        }
      }
    }
  }

  lemma SaveKeepsValid(t: Table, log: Option<LogView>)
    requires TableValid(t)
    ensures TableValid(Saved(t, log))
  {
  }

  lemma DeleteKeepsValid(t: Table, url: string)
    requires TableValid(t)
    ensures TableValid(Deleted(t, url))
  {
    assert Increasing(t.rows);
    WithoutUrlKeepsOrder(t.rows, url);
    var r := WithoutUrl(t.rows, url);
    forall i | 0 <= i < |r| ensures 1 <= r[i].id < t.nextId {
      WithoutUrlMembers(t.rows, url, r[i]);
    }
  }

  lemma UpdateKeepsValid(t: Table, url: string, downloadedSize: int, totalSize: int)
    requires TableValid(t)
    ensures TableValid(Updated(t, url, downloadedSize, totalSize))
  {
    UpdateKeepsKeys(t.rows, url, url, downloadedSize, totalSize);
  }

  // ---------------------------------------------------------------------
  // The ledger object
  // ---------------------------------------------------------------------

  class Ledger {
    var rows: seq<Row>
    var history: seq<HistoryRow>
    var nextId: int

    function Tables(): Table
      reads this
    {
      Table(rows, history, nextId)
    }

    ghost predicate Valid()
      reads this
    {
      TableValid(Tables())
    }

    /** A freshly created database: both tables empty. */
    constructor ()
      ensures Valid() && Tables() == Table([], [], 1)
    {
      rows, history, nextId := [], [], 1;
    }

    /** `DownloadDBUtils.save`: -1 for a null log or an empty url, else the new row's id. */
    method Save(log: DownloadLog?) returns (id: int)
      requires Valid()
      modifies this
      ensures Valid()
      ensures var v := if log == null then None else Some(log.View());
        Tables() == Saved(old(Tables()), v) && id == SaveId(old(Tables()), v)
    {
      if log == null || IsEmpty(log.url) {
        return -1;
      }
      SaveKeepsValid(Tables(), Some(log.View()));
      rows := rows + [Row(nextId, log.url.value, log.downloadedSize, log.totalSize, log.savedFile)];
      id := nextId;
      nextId := nextId + 1;
    }

    /** `DownloadDBUtils.delete`: removes every row of `url` and returns how many. */
    method Delete(url: string) returns (count: int)
      requires Valid()
      modifies this
      ensures Valid()
      ensures Tables() == Deleted(old(Tables()), url)
      ensures count == CountUrl(old(rows), url)
    {
      DeleteKeepsValid(Tables(), url);
      count := CountUrl(rows, url);
      rows := WithoutUrl(rows, url);
    }

    /** `DownloadDBUtils.getLogByUrl`: null, or a new log built from the first matching row. */
    method GetLogByUrl(url: string) returns (log: DownloadLog?)
      ensures (log == null) <==> FirstWithUrl(rows, url).None?
      ensures log != null ==> fresh(log) && log.View() == RowLog(FirstWithUrl(rows, url).value)
    {
      var found := FirstWithUrl(rows, url);
      if found.None? {
        return null;
      }
      var row := found.value;
      log := new DownloadLog.Empty();
      log.SetId(row.id);
      log.SetUrl(Some(row.url));
      log.SetDownloadedSize(row.downloadedSize);
      log.SetTotalSize(row.totalSize);
      log.SetSavedFile(row.savedFile);
    }

    /**
     * `DownloadDBUtils.update`: rewrites the rows of the log's url and
     * returns how many there were (0 when none).
     */
    method Update(log: DownloadLog) returns (count: int)
      requires Valid() && log.url.Some?
      modifies this
      ensures Valid()
      ensures Tables() == Updated(old(Tables()), log.url.value, log.downloadedSize, log.totalSize)
      ensures count == CountUrl(old(rows), log.url.value)
    {
      UpdateKeepsValid(Tables(), log.url.value, log.downloadedSize, log.totalSize);
      count := CountUrl(rows, log.url.value);
      rows := UpdatedRows(rows, log.url.value, log.downloadedSize, log.totalSize);
    }

    /** Appends a finished download to the history; the in-progress rows are untouched. */
    method SaveHistory(log: DownloadLog)
      requires Valid()
      modifies this
      ensures Valid()
      ensures Tables() == WithHistory(old(Tables()), log.View())
    {
      history := history + [HistoryOf(log.View())];
    }
  }
}
