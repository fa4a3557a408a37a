/**
  The character classes of Python's `str` that the formatter depends on.

  Whitespace (`str.isspace`, the `\s` class of a `str` regular expression and
  what `str.lstrip()` removes) and line boundaries (`str.splitlines`) are small,
  fixed tables and are written out in full.  The decimal-digit class `\d`
  (Unicode category Nd) is large; it is kept abstract as a predicate value
  `isDigit` about which only `IsDigitClass` is assumed.
 */
module Unicode {

  /** U+200F RIGHT-TO-LEFT MARK */
  const Rlm: char := '\U{200F}'
  /** U+2022 BULLET */
  const BulletGlyph: char := '\U{2022}'
  /** U+25AA BLACK SMALL SQUARE */
  const SquareGlyph: char := '\U{25AA}'

  /** `c.isspace()`: general category Zs, or bidirectional class WS, B or S. */
  predicate IsSpace(c: char) {
    || ('\t' <= c <= '\r')                  // U+0009 .. U+000D
    || ('\U{001C}' <= c <= ' ')             // U+001C .. U+0020
    || c == '\U{0085}' || c == '\U{00A0}' || c == '\U{1680}'
    || ('\U{2000}' <= c <= '\U{200A}')
    || c == '\U{2028}' || c == '\U{2029}' || c == '\U{202F}'
    || c == '\U{205F}' || c == '\U{3000}'
  }

  /** The characters at which `str.splitlines` ends a line. */
  predicate IsLineBreak(c: char) {
    || ('\n' <= c <= '\r')                  // LF, VT, FF, CR
    || ('\U{001C}' <= c <= '\U{001E}')      // file, group and record separators
    || c == '\U{0085}' || c == '\U{2028}' || c == '\U{2029}'
  }

  /** A character XML 1.0 text may hold, as far as control characters go:
      every C0 control except tab, line feed and carriage return is refused
      when a run's text is set. */
  predicate IsXmlChar(c: char) {
    c >= ' ' || c == '\t' || c == '\n' || c == '\r'
  }

  /** The explicit range `[۰-۹]` of the second numbered-line pattern:
      EXTENDED ARABIC-INDIC (Persian) digits U+06F0 .. U+06F9. */
  predicate IsPersianDigit(c: char) {
    '\U{06F0}' <= c <= '\U{06F9}'
  }

  /** What the model assumes about Python's `\d`: it contains the ASCII,
      Arabic-Indic and Persian digits, and no decimal digit is whitespace,
      a right-to-left mark or one of the separators `.` and `)`. */
  ghost predicate IsDigitClass(isDigit: char -> bool) {
    && (forall c :: '0' <= c <= '9' ==> isDigit(c))
    && (forall c :: '\U{0660}' <= c <= '\U{0669}' ==> isDigit(c))
    && (forall c :: IsPersianDigit(c) ==> isDigit(c))
    && (forall c :: isDigit(c) ==> !IsSpace(c) && c != Rlm && c != '.' && c != ')')
  }
}
