/**
 * The download-progress record: a mutable object with five persistent
 * fields (id, url, downloaded size, total size, saved file) and the
 * advisory lock the engine sets while a transfer runs.
 */
module DownloadLogs {
  import opened Wrappers
  import opened Text

  /** The value held by a `DownloadLog` object at one moment. */
  datatype LogView = LogView(
    id: int,
    url: Option<string>,
    downloadedSize: int,
    totalSize: int,
    savedFile: Option<string>,
    locked: bool)

  /** Java's rendering of a reference that may be null. */
  function NullableText(s: Option<string>): string {
    if s.None? then "null" else s.value
  }

  /**
   * How `toString()` lays out a log: the labels in the order id, url,
   * downloaded size, total size, saved file, each field's text `id`, `u`,
   * `d`, `t`, `f` right behind its label, and the url and the saved file
   * in quotes.
   */
  ghost predicate LaidOut(r: string, id: string, u: string, d: string, t: string, f: string) {
    var p0 := 15 + |id|;
    var p1 := p0 + 7 + |u| + 1;
    var p2 := p1 + 17 + |d|;
    var p3 := p2 + 12 + |t|;
    && |r| == p3 + 13 + |f| + 2
    && r[..15] == "DownloadLog{id=" && r[15..p0] == id
    && r[p0..p0 + 7] == ", url='" && r[p0 + 7..p1 - 1] == u && r[p1 - 1..p1] == "'"
    && r[p1..p1 + 17] == ", downloadedSize=" && r[p1 + 17..p2] == d
    && r[p2..p2 + 12] == ", totalSize=" && r[p2 + 12..p3] == t
    && r[p3..p3 + 13] == ", savedFile='" && r[p3 + 13..|r| - 2] == f && r[|r| - 2..] == "'}"
  }

  /** The text of `toString()`. */
  function LogText(v: LogView): (r: string)
    ensures LaidOut(r, Decimal(v.id), NullableText(v.url), Decimal(v.downloadedSize),
                    Decimal(v.totalSize), NullableText(v.savedFile))
  {
    var id, u, d, t, f := Decimal(v.id), NullableText(v.url), Decimal(v.downloadedSize),
                          Decimal(v.totalSize), NullableText(v.savedFile);
    Layout(id, u, d, t, f);
    "DownloadLog{id=" + (id + (", url='" + (u + ("'" + (", downloadedSize=" + (d +
      (", totalSize=" + (t + (", savedFile='" + (f + "'}"))))))))))
  }

  /** The three numbers read back from their places in the rendering. */
  lemma LogTextNumbers(v: LogView)
    ensures var r, id, u, d, t := LogText(v), Decimal(v.id), NullableText(v.url),
                                  Decimal(v.downloadedSize), Decimal(v.totalSize);
      var p0 := 15 + |id|;
      var p1 := p0 + 7 + |u| + 1;
      var p2 := p1 + 17 + |d|;
      var p3 := p2 + 12 + |t|;
      && p3 <= |r|
      && ParseDecimal(r[15..p0]) == Some(v.id)
      && ParseDecimal(r[p1 + 17..p2]) == Some(v.downloadedSize)
      && ParseDecimal(r[p2 + 12..p3]) == Some(v.totalSize)
  {
    DecimalRoundTrip(v.id);
    DecimalRoundTrip(v.downloadedSize);
    DecimalRoundTrip(v.totalSize);
  }

  /** Where each piece of the rendering sits, following the pieces from the end. */
  lemma Layout(id: string, u: string, d: string, t: string, f: string)
    ensures LaidOut("DownloadLog{id=" + (id + (", url='" + (u + ("'" + (", downloadedSize=" + (d +
                      (", totalSize=" + (t + (", savedFile='" + (f + "'}")))))))))), id, u, d, t, f)
  {
    var t10 := f + "'}";
    var t9 := ", savedFile='" + t10;
    var t8 := t + t9;
    var t7 := ", totalSize=" + t8;
    var t6 := d + t7;
    var t5 := ", downloadedSize=" + t6;
    var t4 := "'" + t5;
    var t3 := u + t4;
    var t2 := ", url='" + t3;
    var t1 := id + t2;
    var r := "DownloadLog{id=" + t1;
    Peel(r, "DownloadLog{id=", t1);
    Peel(r, id, t2);
    Peel(r, ", url='", t3);
    Peel(r, u, t4);
    Peel(r, "'", t5);
    Peel(r, ", downloadedSize=", t6);
    Peel(r, d, t7);
    Peel(r, ", totalSize=", t8);
    Peel(r, t, t9);
    Peel(r, ", savedFile='", t10);
    Peel(r, f, "'}");
  }

  /** A tail `x + rest` of `r` splits into `x`, then `rest` as the shorter tail. */
  lemma Peel(r: string, x: string, rest: string)
    requires |x + rest| <= |r| && r[|r| - |x + rest|..] == x + rest
    ensures r[|r| - |x + rest|..|r| - |rest|] == x && r[|r| - |rest|..] == rest
  {
    var k := |r| - |x + rest|;
    assert r[k..|r| - |rest|] == r[k..][..|x|];
    assert r[|r| - |rest|..] == r[k..][|x|..];
  }

  class DownloadLog {
    var id: int
    var url: Option<string>
    var downloadedSize: int
    var totalSize: int
    var savedFile: Option<string>
    var locked: bool

    function View(): LogView
      reads this
    {
      LogView(id, url, downloadedSize, totalSize, savedFile, locked)
    }

    /** `new DownloadLog()`: sizes and id zero, url and saved file null. */
    constructor Empty()
      ensures View() == LogView(0, None, 0, 0, None, false)
    {
      id, url, downloadedSize, totalSize, savedFile, locked := 0, None, 0, 0, None, false;
    }

    /** `new DownloadLog(url, downloadedSize, totalSize, savedFile)`. */
    constructor (url: Option<string>, downloadedSize: int, totalSize: int, savedFile: Option<string>)
      ensures View() == LogView(0, url, downloadedSize, totalSize, savedFile, false)
    {
      this.id := 0;
      this.url := url;
      this.downloadedSize := downloadedSize;
      this.totalSize := totalSize;
      this.savedFile := savedFile;
      this.locked := false;
    }

    method SetId(id: int)
      modifies this
      ensures View() == old(View()).(id := id)
    {
      this.id := id;
    }

    method SetUrl(url: Option<string>)
      modifies this
      ensures View() == old(View()).(url := url)
    {
      this.url := url;
    }

    method SetDownloadedSize(downloadedSize: int)
      modifies this
      ensures View() == old(View()).(downloadedSize := downloadedSize)
    {
      this.downloadedSize := downloadedSize;
    }

    method SetTotalSize(totalSize: int)
      modifies this
      ensures View() == old(View()).(totalSize := totalSize)
    {
      this.totalSize := totalSize;
    }

    method SetSavedFile(savedFile: Option<string>)
      modifies this
      ensures View() == old(View()).(savedFile := savedFile)
    {
      this.savedFile := savedFile;
    }

    /** Takes the advisory lock; nothing else changes. */
    method Lock()
      modifies this
      ensures View() == old(View()).(locked := true)
    {
      locked := true;
    }

    /** Releases the advisory lock; nothing else changes. */
    method Unlock()
      modifies this
      ensures View() == old(View()).(locked := false)
    {
      locked := false;
    }

    function ToString(): (r: string)
      reads this
      ensures r == LogText(View())
    {
      LogText(View())
    }
  }
}
