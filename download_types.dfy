/**
 * What the download engine exchanges with the network and with its
 * caller: the two HTTP responses as plain inputs, the stop signal as the
 * loop boundary at which it is observed, the progress callbacks and
 * requests as a trace, and the exceptions `download` throws.
 */
module DownloadTypes {
  import opened Wrappers
  import opened Files

  /** One response header field: `getHeaderFieldKey(i)` (which may be null) and `getHeaderField(i)`. */
  datatype Header = Header(key: Option<string>, value: string)

  /** The first, metadata request on a fresh download. */
  datatype MetaResponse =
    | Unreachable
    | Meta(code: int, contentLength: int, headers: seq<Header>)

  /**
   * The ranged request: either no body stream could be opened, or the body
   * arrives as the chunks successive `read` calls return, after which the
   * next `read` reports the end of the stream or, when `fails`, throws.
   */
  datatype RangeResponse =
    | NoStream
    | Stream(chunks: seq<seq<byte>>, fails: bool)

  /**
   * The environment of one `download` call: the name `UUID.randomUUID()`
   * would produce, the responses, and the loop boundary (number of chunks
   * read so far) at which a concurrent `stop()` is observed, if any.
   */
  datatype Env = Env(freshName: string, meta: MetaResponse, range: RangeResponse, stopAt: Option<nat>)

  /** What the outside world observes, in order. */
  datatype Event =
    | MetadataRequested
    | RangeRequested(range: string)
    | ProgressUpdated(downloadedSize: int, totalSize: int)

  /** The cause of the exception `download` throws. */
  datatype DownloadError =
    | ConnectFailed          // the metadata connection could not be made
    | ServerError(code: int) // the metadata response was not 200
    | SizeUnknown            // the content length was negative
    | NullReference          // a null key or a null saved file was dereferenced
    | TransferFailed         // the ranged transfer failed

  datatype Outcome =
    | Returned(savedFile: Option<string>)
    | Failed(error: DownloadError)
}
