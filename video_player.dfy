/**
 * The playback screen around the download: the duration arithmetic of
 * `formatDuration`, the streaming-scheme test that keeps the loading
 * spinner, and the two player callbacks that reach the play listener.
 */
module Player {
  import opened Wrappers
  import opened Text

  // ---------------------------------------------------------------------
  // Java integer division
  // ---------------------------------------------------------------------

  /** Java's `/` on `int` for a positive divisor: truncates toward zero. */
  function JavaDiv(a: int, b: int): (q: int)
    requires b > 0
    ensures 0 <= a ==> 0 <= a - q * b < b
    ensures a < 0 ==> -b < a - q * b <= 0
  {
    if a >= 0 then a / b else -((-a) / b)
  }

  /** A quotient and a remainder in [0, b) are determined by the dividend. */
  lemma QuotientUnique(q: int, r: int, q': int, r': int, b: int)
    requires b > 0 && 0 <= r < b && 0 <= r' < b
    requires q * b + r == q' * b + r'
    ensures q == q' && r == r'
  {
    MulSub(q, q', b);
    if q != q' {
      NonzeroMultiple(q - q', b);
    }
  }

  lemma MulSub(q: int, q': int, b: int)
    ensures (q - q') * b == q * b - q' * b
  {
  }

  /** A non-zero multiple of a positive number is at least that number away from zero. */
  lemma NonzeroMultiple(k: int, b: int)
    requires k != 0 && b > 0
    ensures k * b >= b || k * b <= -b
  {
    if k > 0 {
      MulAtLeast(k, b);
    } else {
      MulAtLeast(-k, b);
      assert k * b == -((-k) * b);
    }
  }

  lemma MulAtLeast(k: int, b: int)
    requires k >= 1 && b > 0
    ensures k * b >= b
  {
    assert k * b == (k - 1) * b + b;
    assert (k - 1) * b >= 0;
  }

  // ---------------------------------------------------------------------
  // formatDuration (VideoPlayer.java:235-247)
  // ---------------------------------------------------------------------

  /**
   * The two layouts `formatDuration` chooses between: minutes and seconds
   * (`details_ms`), or hours, minutes and seconds (`details_hms`).
   */
  datatype Duration =
    | MinutesSeconds(minutes: int, seconds: int)
    | HoursMinutesSeconds(hours: int, minutes: int, seconds: int)
  {
    function Hours(): int {
      if HoursMinutesSeconds? then hours else 0
    }

    function TotalSeconds(): int {
      Hours() * 3600 + minutes * 60 + seconds
    }
  }

  /** The decomposition `formatDuration` computes, with Java's division. */
  function FormatDuration(durationMs: int): Duration {
    var duration := JavaDiv(durationMs, 1000);
    var h := JavaDiv(duration, 3600);
    var m := JavaDiv(duration - h * 3600, 60);
    var s := duration - (h * 3600 + m * 60);
    if h == 0 then MinutesSeconds(m, s) else HoursMinutesSeconds(h, m, s)
  }

  /** The parts add back up to the whole seconds of the input, truncated. */
  lemma FormatDurationWholeSeconds(durationMs: int)
    ensures FormatDuration(durationMs).TotalSeconds() == JavaDiv(durationMs, 1000)
    ensures durationMs >= 0 ==> FormatDuration(durationMs).TotalSeconds() == durationMs / 1000
  {
  }

  /**
   * For a non-negative input the minutes and seconds lie in [0, 59] and
   * the hours are non-negative; a negative input gives parts in [-59, 0].
   */
  lemma FormatDurationBounds(durationMs: int)
    ensures var d := FormatDuration(durationMs);
      && (durationMs >= 0 ==> 0 <= d.Hours() && 0 <= d.minutes < 60 && 0 <= d.seconds < 60)
      && (durationMs < 0 ==> d.Hours() <= 0 && -60 < d.minutes <= 0 && -60 < d.seconds <= 0)
  {
    var duration := JavaDiv(durationMs, 1000);
    var h := JavaDiv(duration, 3600);
    var rest := duration - h * 3600;
    if durationMs >= 0 {
      assert 0 <= rest < 3600;
    } else {
      assert -3600 < rest <= 0;
    }
  }

  /** Zero hours, i.e. an input under one hour either way, selects minutes:seconds. */
  lemma FormatDurationChoosesLayout(durationMs: int)
    ensures FormatDuration(durationMs).MinutesSeconds? <==> -3600000 < durationMs < 3600000
  {
    var duration := JavaDiv(durationMs, 1000);
    if -3600000 < durationMs < 3600000 {
      assert -3600 < duration < 3600;
    } else {
      assert duration >= 3600 || duration <= -3600;
    }
  }

  /**
   * For a non-negative input the decomposition is the only one with
   * minutes and seconds in [0, 59] that adds up to the whole seconds.
   */
  lemma FormatDurationUnique(durationMs: int, h: int, m: int, s: int)
    requires durationMs >= 0 && 0 <= m < 60 && 0 <= s < 60
    requires h * 3600 + m * 60 + s == durationMs / 1000
    ensures var d := FormatDuration(durationMs);
      d.Hours() == h && d.minutes == m && d.seconds == s
  {
    var d := FormatDuration(durationMs);
    FormatDurationWholeSeconds(durationMs);
    FormatDurationBounds(durationMs);
    QuotientUnique(d.Hours(), d.minutes * 60 + d.seconds, h, m * 60 + s, 3600);
    QuotientUnique(d.minutes, d.seconds, m, s, 60);
  }

  // ---------------------------------------------------------------------
  // The streaming-scheme test (VideoPlayer.java:73-79)
  // ---------------------------------------------------------------------

  /**
   * `Character.toUpperCase` on the characters that can match an ASCII
   * letter: the ASCII letters, the long s (U+017F) and the dotless i (U+0131).
   */
  function UpperChar(c: char): char {
    if 'a' <= c <= 'z' then ((c as int) - 32) as char
    else if c == 'ſ' then 'S'
    else if c == 'ı' then 'I'
    else c
  }

  /**
   * `Character.toLowerCase` on the same range: the ASCII letters, the
   * Kelvin sign (U+212A) and the dotted capital I (U+0130).
   */
  function FoldChar(c: char): char {
    if c == 'K' then 'k' else if c == 'İ' then 'i' else LowerChar(c)
  }

  /** The character comparison of `String.equalsIgnoreCase`. */
  predicate CharsMatch(a: char, b: char) {
    a == b || UpperChar(a) == UpperChar(b) || FoldChar(UpperChar(a)) == FoldChar(UpperChar(b))
  }

  /** `a.equalsIgnoreCase(b)` for a non-null `b`. */
  predicate EqualsIgnoreCase(a: string, b: string) {
    |a| == |b| && forall i :: 0 <= i < |a| ==> CharsMatch(a[i], b[i])
  }

  /** The constructor keeps the spinner for a non-null http, https, ftp or rtsp scheme. */
  predicate StreamingScheme(scheme: Option<string>) {
    scheme.Some? &&
    (EqualsIgnoreCase(scheme.value, "http") || EqualsIgnoreCase(scheme.value, "https")
     || EqualsIgnoreCase(scheme.value, "ftp") || EqualsIgnoreCase("rtsp", scheme.value))
  }

  predicate IsAscii(s: string) {
    forall i :: 0 <= i < |s| ==> s[i] < '\U{80}'
  }

  predicate IsLowerWord(w: string) {
    forall i :: 0 <= i < |w| ==> 'a' <= w[i] <= 'z'
  }

  /** An ASCII character matches a lower-case letter exactly when it lowers to it. */
  lemma AsciiCharMatch(c: char, d: char)
    requires c < '\U{80}' && 'a' <= d <= 'z'
    ensures CharsMatch(c, d) <==> LowerChar(c) == d
    ensures CharsMatch(d, c) <==> LowerChar(c) == d
  {
  }

  /** On ASCII text, ignoring case against a lower-case word is lowering and comparing. */
  lemma AsciiEqualsIgnoreCase(s: string, w: string)
    requires IsAscii(s) && IsLowerWord(w)
    ensures EqualsIgnoreCase(s, w) <==> Lower(s) == w
    ensures EqualsIgnoreCase(w, s) <==> Lower(s) == w
  {
    if |s| == |w| {
      forall i | 0 <= i < |s|
        ensures CharsMatch(s[i], w[i]) <==> Lower(s)[i] == w[i]
        ensures CharsMatch(w[i], s[i]) <==> Lower(s)[i] == w[i]
      {
        AsciiCharMatch(s[i], w[i]);
      }
      if forall i :: 0 <= i < |s| ==> Lower(s)[i] == w[i] {
        assert Lower(s) == w;
      }
    }
  }

  /** On an ASCII scheme the test is membership of its lower-case form in the four names. */
  lemma AsciiStreamingScheme(s: string)
    requires IsAscii(s)
    ensures StreamingScheme(Some(s)) <==> Lower(s) in ["http", "https", "ftp", "rtsp"]
  {
    AsciiEqualsIgnoreCase(s, "http");
    AsciiEqualsIgnoreCase(s, "https");
    AsciiEqualsIgnoreCase(s, "ftp");
    AsciiEqualsIgnoreCase(s, "rtsp");
  }

  /** Case is ignored: upper- and mixed-case names keep the spinner. */
  lemma StreamingSchemeIgnoresCase()
    ensures StreamingScheme(Some("HTTP")) && StreamingScheme(Some("RtSp"))
  {
    assert EqualsIgnoreCase("HTTP", "http") by {
      AsciiCharMatch('H', 'h');
      AsciiCharMatch('T', 't');
      AsciiCharMatch('P', 'p');
    }
    assert EqualsIgnoreCase("rtsp", "RtSp") by {
      AsciiCharMatch('R', 'r');
      AsciiCharMatch('t', 't');
      AsciiCharMatch('S', 's');
      AsciiCharMatch('p', 'p');
    }
  }

  /** The long s matches `s`, as `equalsIgnoreCase` compares upper cases. */
  lemma StreamingSchemeLongS()
    ensures StreamingScheme(Some("httpſ"))
  {
    assert CharsMatch('ſ', 's');
  }

  /** Local and content schemes, and a missing scheme, hide the spinner at once. */
  lemma StreamingSchemeRejects()
    ensures !StreamingScheme(Some("file")) && !StreamingScheme(Some("content")) && !StreamingScheme(None)
  {
    assert !CharsMatch("file"[0], "http"[0]);
    assert !CharsMatch("rtsp"[0], "file"[0]);
  }

  // ---------------------------------------------------------------------
  // The play-listener callbacks (VideoPlayer.java:121-144)
  // ---------------------------------------------------------------------

  /** What the play listener is told. */
  datatype PlayEvent = Completion | Error(what: int, extra: int)

  /** One notification, naming the listener it reached. */
  datatype Notice = Notice(listener: nat, event: PlayEvent)

  /** How `onError` ends as written: notifications, or a NullPointerException. */
  datatype Reaction = Notified(notices: seq<Notice>) | NullPointer

  /**
   * `onError` as written: its guard tests the polling runnable, which a
   * final field initialiser always sets, instead of the listener.
   */
  function ErrorReactionAsWritten(checkerSet: bool, listener: Option<nat>, what: int, extra: int): (r: Reaction)
    ensures r == NullPointer <==> checkerSet && listener.None?
    ensures r.Notified? ==> |r.notices| <= 1 && (r.notices != [] <==> checkerSet)
    ensures r.Notified? ==> forall k :: 0 <= k < |r.notices| ==> r.notices[k] == Notice(listener.value, Error(what, extra))
  {
    if !checkerSet then Notified([])
    else if listener.None? then NullPointer
    else Notified([Notice(listener.value, Error(what, extra))])
  }

  /** Without a listener, an error from the media player throws. */
  lemma ErrorWithoutListenerThrows(what: int, extra: int)
    ensures ErrorReactionAsWritten(true, None, what, extra) == NullPointer
  {
  }

  /** Notifications of `onCompletion`: one for the listener if one is set. */
  function CompletionNotices(listener: Option<nat>): (r: seq<Notice>)
    ensures |r| <= 1 && (r != [] <==> listener.Some?)
    ensures forall k :: 0 <= k < |r| ==> r[k] == Notice(listener.value, Completion)
  {
    if listener.Some? then [Notice(listener.value, Completion)] else []
  }

  /** Notifications of `onError` with its guard testing the listener. */
  function ErrorNotices(listener: Option<nat>, what: int, extra: int): (r: seq<Notice>)
    ensures |r| <= 1 && (r != [] <==> listener.Some?)
    ensures forall k :: 0 <= k < |r| ==> r[k] == Notice(listener.value, Error(what, extra))
  {
    if listener.Some? then [Notice(listener.value, Error(what, extra))] else []
  }

  /**
   * The corrected `onError` never throws, agrees with the written one
   * whenever a listener is set, and notifies under the same condition as
   * `onCompletion`.
   */
  lemma ErrorNoticesCorrectGuard(listener: Option<nat>, what: int, extra: int)
    ensures listener.Some? ==> ErrorReactionAsWritten(true, listener, what, extra) == Notified(ErrorNotices(listener, what, extra))
    ensures |ErrorNotices(listener, what, extra)| == |CompletionNotices(listener)|
  {
  }

  /**
   * The player's observable state: whether the loading spinner is shown,
   * whether the playing check is posted to the handler, the listener, and
   * every notification sent so far.
   */
  class VideoPlayer {
    const streaming: bool
    var listener: Option<nat>
    var spinnerVisible: bool
    var checkPosted: bool
    var notices: seq<Notice>

    /** The check is only ever posted while the spinner is up. */
    ghost predicate Valid()
      reads this
    {
      checkPosted ==> spinnerVisible
    }

    /** The `VideoPlayer` constructor (VideoPlayer.java:73-79): a streaming scheme keeps the spinner and posts the check; any other hides it. */
    constructor(scheme: Option<string>)
      ensures Valid()
      ensures streaming == StreamingScheme(scheme)
      ensures spinnerVisible == streaming && checkPosted == streaming
      ensures listener == None && notices == []
    {
      streaming := StreamingScheme(scheme);
      listener := None;
      notices := [];
      if StreamingScheme(scheme) {
        spinnerVisible := true;
        checkPosted := true;
      } else {
        spinnerVisible := false;
        checkPosted := false;
      }
    }

    /** `setPlayListener` (VideoPlayer.java:142-144): only the listener changes. */
    method SetPlayListener(l: Option<nat>)
      modifies this
      ensures listener == l
      ensures spinnerVisible == old(spinnerVisible) && checkPosted == old(checkPosted) && notices == old(notices)
    {
      listener := l;
    }

    /** `onCompletion` (VideoPlayer.java:132-136): the listener hears of the completion only when one is set. */
    method OnCompletion()
      modifies this
      ensures notices == old(notices) + CompletionNotices(old(listener))
      ensures listener == old(listener) && spinnerVisible == old(spinnerVisible) && checkPosted == old(checkPosted)
    {
      if listener.Some? {
        notices := notices + [Notice(listener.value, Completion)];
      }
    }

    /**
     * `onError` (VideoPlayer.java:122-129) with its guard corrected to test the listener: cancels the check,
     * hides the spinner, notifies a set listener, and reports the error unhandled.
     */
    method OnError(what: int, extra: int) returns (handled: bool)
      requires Valid()
      modifies this
      ensures Valid() && !handled
      ensures !checkPosted && !spinnerVisible
      ensures notices == old(notices) + ErrorNotices(old(listener), what, extra)
      ensures listener == old(listener)
    {
      checkPosted := false;
      spinnerVisible := false;
      if listener.Some? {
        notices := notices + [Notice(listener.value, Error(what, extra))];
      }
      handled := false;
    }
  }
}
