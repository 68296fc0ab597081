/** Character classes and string tests that the script relies on, restricted to ASCII. */
module Text {

  /** An ASCII decimal digit (what `\d` and `int()` accept, restricted to ASCII). */
  predicate IsDigit(c: char) {
    '0' <= c <= '9'
  }

  predicate AllDigits(s: string) {
    forall i :: 0 <= i < |s| ==> IsDigit(s[i])
  }

  /** The ASCII characters Python's `int()` skips around a number:
      tab, line feed, vertical tab, form feed, carriage return and the
      space. The separators 0x1C to 0x1F are not among them, although
      `str.isspace` counts them as whitespace. */
  predicate IsSpace(c: char) {
    (9 <= c as int <= 13) || c == ' '
  }

  predicate AllSpace(s: string) {
    forall i :: 0 <= i < |s| ==> IsSpace(s[i])
  }

  /** Python's `s.startswith(prefix)`. */
  predicate StartsWith(s: string, prefix: string) {
    |prefix| <= |s| && s[..|prefix|] == prefix
  }

  /** Python's `needle in haystack` on two strings: a substring test. */
  predicate Contains(haystack: string, needle: string)
    decreases |haystack|
  {
    StartsWith(haystack, needle) || (|haystack| > 0 && Contains(haystack[1..], needle))
  }
}
