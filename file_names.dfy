/**
 * How `Downloader.getFileName` names the local file: the text after the
 * last `/` of the url; failing that, the `filename=` value of the first
 * content-disposition header carrying one; failing that, a generated name
 * plus the caller's default suffix.
 */
module FileNames {
  import opened Wrappers
  import opened Text
  import opened DownloadTypes

  const FilenameKey := "filename="

  /**
   * What the pattern `.*filename=(.*)` captures with `find()` in a header
   * value without line terminators: the text after the last `filename=`.
   */
  function FilenameToken(value: string): (r: Option<string>)
    ensures r.None? <==> forall i :: 0 <= i <= |value| ==> !OccursAt(value, FilenameKey, i)
    ensures r.Some? ==> exists i: nat :: OccursAt(value, FilenameKey, i) && r.value == value[i + |FilenameKey|..]
    ensures r.Some? ==> forall j :: 0 <= j <= |r.value| ==> !OccursAt(r.value, FilenameKey, j)
  {
    match LastOccurrence(value, FilenameKey)
      case None => None
      case Some(i) =>
        NoKeyInTail(value, i);
        Some(value[i + |FilenameKey|..])
  }

  lemma NoKeyInTail(value: string, i: nat)
    requires OccursAt(value, FilenameKey, i)
    requires forall k :: i < k < |value| + 1 ==> !OccursAt(value, FilenameKey, k)
    ensures var tail := value[i + |FilenameKey|..];
      forall j :: 0 <= j <= |tail| ==> !OccursAt(tail, FilenameKey, j)
  {
    var tail := value[i + |FilenameKey|..];
    forall j | 0 <= j <= |tail| ensures !OccursAt(tail, FilenameKey, j) {
      var k := i + |FilenameKey| + j;
      if OccursAt(tail, FilenameKey, j) {
        assert tail[j..j + |FilenameKey|] == value[k..k + |FilenameKey|];
        assert OccursAt(value, FilenameKey, k);
      }
    }
  }

  /** The name a content-disposition header offers, looked up case-insensitively. */
  function DispositionName(h: Header): Option<string>
    requires h.key.Some?
  {
    if Lower(h.key.value) == "content-disposition" then FilenameToken(Lower(h.value)) else None
  }

  /**
   * The header scan: the first content-disposition header with a
   * `filename=` wins; a header with a null key throws (`toLowerCase` on
   * null); when the headers run out the generated name is used.
   */
  function NameFromHeaders(headers: seq<Header>, defaultSuffix: string, freshName: string): Result<string, DownloadError>
    decreases |headers|
  {
    if headers == [] then Ok(freshName + defaultSuffix)
    else if headers[0].key.None? then Err(NullReference)
    else match DispositionName(headers[0])
      case Some(name) => Ok(name)
      case None => NameFromHeaders(headers[1..], defaultSuffix, freshName)
  }

  /** The name `getFileName` returns or the exception it throws. */
  function ResolveFileName(url: string, headers: seq<Header>, defaultSuffix: string, freshName: string): Result<string, DownloadError> {
    var tail := AfterLast(url, '/');
    if tail != "" then Ok(tail) else NameFromHeaders(headers, defaultSuffix, freshName)
  }

  // ---------------------------------------------------------------------
  // Properties
  // ---------------------------------------------------------------------

  /** A url with a non-empty last segment names the file by that segment, which holds no `/`. */
  lemma NameFromUrlSegment(url: string, headers: seq<Header>, defaultSuffix: string, freshName: string)
    requires AfterLast(url, '/') != ""
    ensures var r := ResolveFileName(url, headers, defaultSuffix, freshName);
      && r == Ok(AfterLast(url, '/'))
      && '/' !in r.value
      && url == url[..|url| - |r.value|] + r.value
  {
    AfterLastSplits(url, '/');
  }

  /**
   * Without a last segment, the first header that is a content-disposition
   * with a `filename=` names the file, provided no earlier header has a
   * null key.
   */
  lemma {:induction false} NameFromFirstDisposition(headers: seq<Header>, defaultSuffix: string, freshName: string, k: nat)
    requires k < |headers|
    requires forall j :: 0 <= j <= k ==> headers[j].key.Some?
    requires forall j :: 0 <= j < k ==> DispositionName(headers[j]).None?
    requires DispositionName(headers[k]).Some?
    ensures NameFromHeaders(headers, defaultSuffix, freshName) == Ok(DispositionName(headers[k]).value)
    decreases k
  {
    if k > 0 {
      NameFromFirstDisposition(headers[1..], defaultSuffix, freshName, k - 1);
    }
  }

  /** Without any usable header, the generated name plus the default suffix is used. */
  lemma {:induction false} NameFallsBackToFresh(headers: seq<Header>, defaultSuffix: string, freshName: string)
    requires forall j :: 0 <= j < |headers| ==> headers[j].key.Some? && DispositionName(headers[j]).None?
    ensures NameFromHeaders(headers, defaultSuffix, freshName) == Ok(freshName + defaultSuffix)
    decreases |headers|
  {
    if headers != [] {
      NameFallsBackToFresh(headers[1..], defaultSuffix, freshName);
    }
  }

  /** A null key before any usable content-disposition header makes the lookup throw. */
  lemma {:induction false} NullKeyThrows(headers: seq<Header>, defaultSuffix: string, freshName: string, k: nat)
    requires k < |headers| && headers[k].key.None?
    requires forall j :: 0 <= j < k ==> headers[j].key.Some? && DispositionName(headers[j]).None?
    ensures NameFromHeaders(headers, defaultSuffix, freshName) == Err(NullReference)
    decreases k
  {
    if k > 0 {
      NullKeyThrows(headers[1..], defaultSuffix, freshName, k - 1);
    }
  }
}
