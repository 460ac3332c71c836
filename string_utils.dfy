/**
 * The text helpers the property source relies on: Spring's `StringUtils.hasText`
 * and `StringUtils.collectionToCommaDelimitedString`, and the decimal form that
 * Java's string concatenation gives a non-negative `int` (used for list indices).
 */
module StringUtils {

  /** Java's `Character.isWhitespace` on one UTF-16 code unit, as in JDK 9 and
      later (Unicode 6.3 onwards): the Unicode space, line and paragraph
      separators other than the non-breaking ones, plus the ASCII controls TAB,
      LF, VT, FF, CR and FS, GS, RS, US. JDK 8 (Unicode 6.2) also counts
      U+180E MONGOLIAN VOWEL SEPARATOR, which this set does not. */
  predicate IsWhitespace(c: char) {
    || ('\t' <= c <= '\r')
    || ('\U{1C}' <= c <= ' ')
    || c == '\U{1680}'
    || ('\U{2000}' <= c <= '\U{2006}')
    || ('\U{2008}' <= c <= '\U{200A}')
    || c == '\U{2028}'
    || c == '\U{2029}'
    || c == '\U{205F}'
    || c == '\U{3000}'
  }

  /** `StringUtils.hasText`: some character is not whitespace. A Java `null`
      has no text either; the model passes "" where the source passes null. */
  predicate HasText(s: string) {
    exists i | 0 <= i < |s| :: !IsWhitespace(s[i])
  }

  lemma HasTextExtends(p: string, q: string)
    requires HasText(p)
    ensures HasText(p + q)
  {
    var i :| 0 <= i < |p| && !IsWhitespace(p[i]);
    assert (p + q)[i] == p[i];
  }

  /** The empty string, and any string made of whitespace only, have no text. */
  lemma {:induction false} BlankHasNoText(s: string)
    requires forall i | 0 <= i < |s| :: IsWhitespace(s[i])
    ensures !HasText(s)
  {
  }

  // ---------------------------------------------------------------------------
  // Decimal rendering of list indices

  predicate IsDigit(c: char) {
    '0' <= c <= '9'
  }

  function Digit(d: nat): (c: char)
    requires d < 10
    ensures IsDigit(c) && c as int - '0' as int == d
  {
    ('0' as int + d) as char
  }

  /** The text Java gives a non-negative int: its decimal digits, no sign, no
      leading zero. */
  function DecimalString(n: nat): (s: string)
    ensures |s| > 0 && forall i | 0 <= i < |s| :: IsDigit(s[i])
    ensures |s| > 1 ==> s[0] != '0'
  {
    if n < 10 then [Digit(n)] else DecimalString(n / 10) + [Digit(n % 10)]
  }

  /** The number a string of decimal digits denotes, most significant digit
      first; "" denotes 0. */
  function ParseDecimal(s: string): nat
    requires forall i | 0 <= i < |s| :: IsDigit(s[i])
  {
    if s == [] then 0
    else 10 * ParseDecimal(s[..|s| - 1]) + DigitValue(s[|s| - 1])
  }

  function DigitValue(c: char): nat
    requires IsDigit(c)
  {
    c as int - '0' as int
  }

  lemma {:induction false} DecimalRoundTrip(n: nat)
    ensures ParseDecimal(DecimalString(n)) == n
  {
    var s := DecimalString(n);
    if n >= 10 {
      DecimalRoundTrip(n / 10);
      assert s[..|s| - 1] == DecimalString(n / 10);
    }
  }

  lemma DecimalStringInjective(m: nat, n: nat)
    requires DecimalString(m) == DecimalString(n)
    ensures m == n
  {
    DecimalRoundTrip(m);
    DecimalRoundTrip(n);
  }

  // ---------------------------------------------------------------------------
  // Comma-delimited joining

  /** `StringUtils.collectionToCommaDelimitedString` over the elements' texts:
      "" for no element, otherwise the texts with one ',' between neighbours. */
  function CommaDelimited(parts: seq<string>): string {
    if parts == [] then ""
    else if |parts| == 1 then parts[0]
    else parts[0] + "," + CommaDelimited(parts[1..])
  }

  /** Splits a string at every ','; the inverse of `CommaDelimited` on
      non-empty lists of comma-free parts. */
  function SplitOnComma(s: string): (parts: seq<string>)
    ensures |parts| > 0
  {
    if s == [] then [""]
    else
      var rest := SplitOnComma(s[1..]);
      if s[0] == ',' then [""] + rest
      else [[s[0]] + rest[0]] + rest[1..]
  }

  lemma {:induction false} SplitCommaFreePrefix(x: string, t: string)
    requires ',' !in x
    ensures SplitOnComma(x + t) == [x + SplitOnComma(t)[0]] + SplitOnComma(t)[1..]
  {
    if x != [] {
      assert (x + t)[1..] == x[1..] + t;
      SplitCommaFreePrefix(x[1..], t);
      assert [x[0]] + (x[1..] + SplitOnComma(t)[0]) == x + SplitOnComma(t)[0];
    } else {
      var r := SplitOnComma(t);
      assert x + t == t;
      assert x + r[0] == r[0];
      assert [r[0]] + r[1..] == r;
    }
  }

  /** Joining comma-free parts and splitting the result gives the parts back:
      the joined value keeps the element count and order. */
  lemma {:induction false} SplitCommaDelimited(parts: seq<string>)
    requires |parts| > 0
    requires forall i | 0 <= i < |parts| :: ',' !in parts[i]
    ensures SplitOnComma(CommaDelimited(parts)) == parts
  {
    if |parts| == 1 {
      SplitCommaFreePrefix(parts[0], "");
      assert parts[0] + "" == parts[0];
    } else {
      var tail := CommaDelimited(parts[1..]);
      SplitCommaDelimited(parts[1..]);
      assert parts[0] + "," + tail == parts[0] + ("," + tail);
      SplitCommaFreePrefix(parts[0], "," + tail);
      assert ("," + tail)[1..] == tail;
      assert SplitOnComma("," + tail) == [""] + parts[1..];
      assert parts[0] + "" == parts[0];
    }
  }
}
