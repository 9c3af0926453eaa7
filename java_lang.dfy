/** The few pieces of the Java platform the core relies on: blank strings,
    string length, the regular-expression whitespace class, decimal
    rendering of an int, and the ordering of LocalDate. */
module JavaLang {
  import opened Wrappers

  /** Character.isWhitespace: the Unicode space, line and paragraph
      separators other than the non-breaking ones (U+00A0, U+2007, U+202F),
      plus the ASCII controls TAB, LF, VT, FF, CR and U+001C..U+001F. */
  predicate IsWhitespace(c: char) {
    || c == ' ' || c == '\t' || c == '\n' || c == '\U{000B}' || c == '\U{000C}' || c == '\r'
    || ('\U{001C}' <= c <= '\U{001F}')
    || c == '\U{1680}'
    || ('\U{2000}' <= c <= '\U{2006}') || ('\U{2008}' <= c <= '\U{200A}')
    || c == '\U{2028}' || c == '\U{2029}' || c == '\U{205F}' || c == '\U{3000}'
  }

  /** String.isBlank: empty, or made of whitespace code points only. The
      empty string is blank, every run of the regular-expression spaces is
      blank, and a no-break space makes a string non-blank. */
  predicate IsBlank(s: string)
    ensures s == [] ==> IsBlank(s)
    ensures (forall i :: 0 <= i < |s| ==> IsRegexSpace(s[i])) ==> IsBlank(s)
    ensures '\U{00A0}' in s ==> !IsBlank(s)
  {
    forall i :: 0 <= i < |s| ==> IsWhitespace(s[i])
  }

  /** A String field that must be present and hold a character other than
      whitespace, with whitespace as String.isBlank sees it. */
  predicate NotBlank(s: Option<string>)
    ensures NotBlank(s) ==> s.Some? && s.value != []
  {
    s.Some? && !IsBlank(s.value)
  }

  /** The predefined regular-expression class \s (without the
      UNICODE_CHARACTER_CLASS flag): [ \t\n\x0B\f\r]. */
  predicate IsRegexSpace(c: char) {
    c == ' ' || c == '\t' || c == '\n' || c == '\U{000B}' || c == '\U{000C}' || c == '\r'
  }

  /** String.length(): the number of UTF-16 code units, so a code point
      outside the Basic Multilingual Plane counts twice. */
  function Utf16Length(s: string): (n: nat)
    ensures |s| <= n <= 2 * |s|
    ensures n == |s| <==> forall i :: 0 <= i < |s| ==> s[i] as int <= 0xFFFF
  {
    if s == [] then 0
    else
      var rest := Utf16Length(s[1..]);
      assert forall i :: 1 <= i < |s| ==> s[i] == s[1..][i - 1];
      (if s[0] as int > 0xFFFF then 2 else 1) + rest
  }

  predicate IsDigit(c: char) {
    '0' <= c <= '9'
  }

  /** The character of a decimal digit. */
  function Digit(d: int): (c: char)
    requires 0 <= d < 10
    ensures IsDigit(c)
  {
    ('0' as int + d) as char
  }

  /** Reads a run of decimal digits back as a number, most significant
      digit first, as Long.parseLong does for an unsigned numeral. */
  function DecimalValue(s: string): int
    requires forall i :: 0 <= i < |s| ==> IsDigit(s[i])
  {
    if s == [] then 0
    else 10 * DecimalValue(s[..|s| - 1]) + (s[|s| - 1] as int - '0' as int)
  }

  /** Long.toString for the decimal rendering used in messages: a minus
      sign exactly for negative numbers, followed by digits that read back
      as the magnitude. */
  function IntToString(n: int): (r: string)
    ensures r != [] && (r[0] == '-' <==> n < 0)
    ensures n < 0 ==> (forall i :: 1 <= i < |r| ==> IsDigit(r[i])) && DecimalValue(r[1..]) == -n
    ensures n >= 0 ==> (forall i :: 0 <= i < |r| ==> IsDigit(r[i])) && DecimalValue(r) == n
    ensures n < 0 ==> r[1..] == NatToString(-n)
    ensures n >= 0 ==> r == NatToString(n)
  {
    if n < 0 then
      var digits := NatToString(-n);
      assert ("-" + digits)[1..] == digits;
      "-" + digits
    else NatToString(n)
  }

  /** The decimal digits of `n`, most significant first, with no leading
      zero except for 0 itself; they read back as `n`. */
  function NatToString(n: nat): (r: string)
    ensures r != [] && forall i :: 0 <= i < |r| ==> IsDigit(r[i])
    ensures DecimalValue(r) == n
    ensures r[0] == '0' ==> n == 0
    ensures n < 10 <==> |r| == 1
    decreases n
  {
    if n < 10 then [Digit(n)]
    else
      var prefix := NatToString(n / 10);
      var r := prefix + [Digit(n % 10)];
      assert r[..|r| - 1] == prefix;
      r
  }

  /** Different numbers have different renderings. */
  lemma IntToStringInjective(m: int, n: int)
    requires IntToString(m) == IntToString(n)
    ensures m == n
  {
  }

  /** Of two different dates exactly one is before the other. */
  lemma IsBeforeTotal(a: Date, b: Date)
    ensures IsBefore(a, b) ==> !IsBefore(b, a)
    ensures a != b ==> IsBefore(a, b) || IsBefore(b, a)
  {
  }

  /** Ordering of dates is transitive. */
  lemma IsBeforeTransitive(a: Date, b: Date, c: Date)
    requires IsBefore(a, b) && IsBefore(b, c)
    ensures IsBefore(a, c)
  {
  }

  /** A java.time.LocalDate as its (year, month, day) fields. */
  datatype Date = Date(year: int, month: int, day: int)

  /** LocalDate.isBefore: compareTo orders by year, then month, then day.
      No date is before itself, nor before one of an earlier year. */
  predicate IsBefore(a: Date, b: Date)
    ensures IsBefore(a, b) ==> a != b && a.year <= b.year
  {
    || a.year < b.year
    || (a.year == b.year && a.month < b.month)
    || (a.year == b.year && a.month == b.month && a.day < b.day)
  }
}
