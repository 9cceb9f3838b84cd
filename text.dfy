/**
 * The string operations of the Java library and of the project's own
 * `StringUtils` helper that the download engine relies on.
 */
module Text {
  import opened Wrappers

  /** `StringUtils.isEmpty`: null or of length zero. */
  predicate IsEmpty(s: Option<string>) {
    s.None? || s.value == ""
  }

  // ---------------------------------------------------------------------
  // Integer.toString / Long.toString and their inverse
  // ---------------------------------------------------------------------

  predicate IsDigit(c: char) {
    '0' <= c <= '9'
  }

  function DigitChar(d: nat): (c: char)
    requires d < 10
    ensures IsDigit(c) && (c as int) - ('0' as int) == d
  {
    ['0', '1', '2', '3', '4', '5', '6', '7', '8', '9'][d]
  }

  /** The decimal digits of `n`, most significant first, without leading zeros. */
  function Digits(n: nat): (r: string)
    decreases n
  {
    if n < 10 then [DigitChar(n)] else Digits(n / 10) + [DigitChar(n % 10)]
  }

  /** Java's decimal rendering of an integer, with a minus sign when negative. */
  function Decimal(n: int): string {
    if n < 0 then "-" + Digits(-n) else Digits(n)
  }

  /** The value of a non-empty string of decimal digits, or None. */
  function DigitsValue(s: string): (r: Option<nat>)
    decreases |s|
  {
    if s == [] || !IsDigit(s[|s| - 1]) then None
    else if |s| == 1 then Some((s[0] as int) - ('0' as int))
    else match DigitsValue(s[..|s| - 1])
      case None => None
      case Some(v) => Some(v * 10 + ((s[|s| - 1] as int) - ('0' as int)))
  }

  /** Reads back what `Decimal` writes: an optional minus sign and digits. */
  function ParseDecimal(s: string): Option<int> {
    if |s| > 0 && s[0] == '-' then
      match DigitsValue(s[1..])
        case None => None
        case Some(v) => Some(0 - v)
    else
      match DigitsValue(s)
        case None => None
        case Some(v) => Some(v)
  }

  lemma {:induction false} DigitsShape(n: nat)
    ensures |Digits(n)| >= 1
    ensures forall i :: 0 <= i < |Digits(n)| ==> IsDigit(Digits(n)[i])
    ensures n >= 10 ==> Digits(n)[0] != '0'
    decreases n
  {
    if n >= 10 {
      DigitsShape(n / 10);
      assert Digits(n)[0] == Digits(n / 10)[0];
    }
  }

  lemma {:induction false} DigitsRoundTrip(n: nat)
    ensures DigitsValue(Digits(n)) == Some(n)
    decreases n
  {
    if n >= 10 {
      DigitsRoundTrip(n / 10);
      DigitsShape(n / 10);
      var s := Digits(n);
      assert s[..|s| - 1] == Digits(n / 10);
    }
  }

  /** Every decimal rendering reads back as the number rendered. */
  lemma DecimalRoundTrip(n: int)
    ensures ParseDecimal(Decimal(n)) == Some(n)
  {
    if n < 0 {
      NegativeRoundTrip(n);
    } else {
      NonNegativeRoundTrip(n);
    }
  }

  lemma NonNegativeRoundTrip(n: nat)
    ensures ParseDecimal(Decimal(n)) == Some(n)
  {
    var s := Digits(n);
    assert Decimal(n) == s;
    DigitsShape(n);
    assert s[0] != '-' by { assert IsDigit(s[0]); }
    DigitsRoundTrip(n);
  }

  lemma NegativeRoundTrip(n: int)
    requires n < 0
    ensures ParseDecimal(Decimal(n)) == Some(n)
  {
    var s := "-" + Digits(-n);
    assert Decimal(n) == s;
    assert s[1..] == Digits(-n);
    DigitsRoundTrip(-n);
  }

  /** Distinct numbers have distinct renderings. */
  lemma DecimalInjective(a: int, b: int)
    requires Decimal(a) == Decimal(b)
    ensures a == b
  {
    DecimalRoundTrip(a);
    DecimalRoundTrip(b);
  }

  // ---------------------------------------------------------------------
  // toLowerCase(Locale.ENGLISH), restricted to ASCII letters
  // ---------------------------------------------------------------------

  function LowerChar(c: char): char {
    if 'A' <= c <= 'Z' then ((c as int) + 32) as char else c
  }

  predicate IsUpperAscii(c: char) {
    'A' <= c <= 'Z'
  }

  /**
   * The ASCII letters A-Z become a-z, in place; every other character
   * is kept, so no upper-case ASCII letter survives.
   */
  function Lower(s: string): (r: string)
    ensures |r| == |s|
    ensures forall i :: 0 <= i < |r| ==> !IsUpperAscii(r[i])
    ensures forall i :: 0 <= i < |s| && !IsUpperAscii(s[i]) ==> r[i] == s[i]
    ensures forall i :: 0 <= i < |s| && IsUpperAscii(s[i]) ==> r[i] as int == s[i] as int + 32
  {
    seq(|s|, i requires 0 <= i < |s| => LowerChar(s[i]))
  }

  /** Lowering twice is lowering once. */
  lemma LowerIdempotent(s: string)
    ensures Lower(Lower(s)) == Lower(s)
  {
  }

  // ---------------------------------------------------------------------
  // String.lastIndexOf and the text after the last separator
  // ---------------------------------------------------------------------

  /** `s.lastIndexOf(c)`: the last position holding `c`, or -1. */
  function LastIndexOf(s: string, c: char): (r: int)
    ensures -1 <= r < |s|
    ensures r >= 0 ==> s[r] == c
    ensures forall i :: r < i < |s| ==> s[i] != c
    decreases |s|
  {
    if s == [] then -1
    else if s[|s| - 1] == c then |s| - 1
    else LastIndexOf(s[..|s| - 1], c)
  }

  /** The last `c` of `x + [c] + y` is the one after `x` when `y` holds no `c`. */
  lemma {:induction false} LastIndexOfSplit(x: string, c: char, y: string)
    requires forall i :: 0 <= i < |y| ==> y[i] != c
    ensures LastIndexOf(x + [c] + y, c) == |x|
    decreases |y|
  {
    var s := x + [c] + y;
    if y != [] {
      var y' := y[..|y| - 1];
      assert s[|s| - 1] == y[|y| - 1];
      assert s[..|s| - 1] == x + [c] + y';
      LastIndexOfSplit(x, c, y');
    }
  }

  /** `s.substring(s.lastIndexOf(c) + 1)`. */
  function AfterLast(s: string, c: char): string {
    s[LastIndexOf(s, c) + 1..]
  }

  /** The text after the last `c` holds no `c`, and `s` ends with it. */
  lemma AfterLastSplits(s: string, c: char)
    ensures c !in AfterLast(s, c)
    ensures s == s[..|s| - |AfterLast(s, c)|] + AfterLast(s, c)
    ensures |AfterLast(s, c)| < |s| ==> s[|s| - |AfterLast(s, c)| - 1] == c
  {
    var k := LastIndexOf(s, c) + 1;
    assert AfterLast(s, c) == s[k..];
    forall j | 0 <= j < |s[k..]| ensures s[k..][j] != c {
      assert s[k..][j] == s[k + j];
    }
  }

  // ---------------------------------------------------------------------
  // Substring occurrences
  // ---------------------------------------------------------------------

  predicate OccursAt(s: string, pat: string, i: nat) {
    i + |pat| <= |s| && s[i..i + |pat|] == pat
  }

  /** The last position below `k` at which `pat` occurs in `s`. */
  function LastOccurrenceBelow(s: string, pat: string, k: nat): (r: Option<nat>)
    ensures r.Some? ==> r.value < k && OccursAt(s, pat, r.value)
    ensures r.Some? ==> forall i :: r.value < i < k ==> !OccursAt(s, pat, i)
    ensures r.None? ==> forall i :: 0 <= i < k ==> !OccursAt(s, pat, i)
    decreases k
  {
    if k == 0 then None
    else if OccursAt(s, pat, k - 1) then Some(k - 1)
    else LastOccurrenceBelow(s, pat, k - 1)
  }

  /** The last position at which `pat` occurs in `s`. */
  function LastOccurrence(s: string, pat: string): Option<nat> {
    LastOccurrenceBelow(s, pat, |s| + 1)
  }
}
