/** The text test of the framework's `StringUtils`, which the filter applies to
    the header and to the extracted token. */
module StringUtils {
  import opened Results

  /** `Character.isWhitespace`: the Unicode space, line and paragraph separators
      other than the non-breaking ones, and the control characters U+0009 to
      U+000D and U+001C to U+001F. */
  predicate IsWhitespace(c: char) {
    var n := c as int;
    || (0x09 <= n <= 0x0D) || (0x1C <= n <= 0x20)
    || n == 0x1680 || (0x2000 <= n <= 0x2006) || (0x2008 <= n <= 0x200A)
    || n == 0x2028 || n == 0x2029 || n == 0x205F || n == 0x3000
  }

  /** `StringUtils.hasText`: not null, and some character is not whitespace. */
  predicate HasText(s: Option<string>) {
    s.Some? && exists i :: 0 <= i < |s.value| && !IsWhitespace(s.value[i])
  }
}
