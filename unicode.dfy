/**
 * The rune classes the validator consults (Go's unicode.IsSpace, unicode.IsUpper and
 * unicode.IsDigit) and the UTF-8 width of a rune.
 *
 * A Go string is ranged over rune by rune; this model represents a string directly as
 * its sequence of runes (`seq<char>`, Dafny's char being a Unicode scalar value).
 * IsSpace is Go's white-space set exactly. IsUpper and IsDigit are exact on Latin-1
 * (U+0000..U+00FF); above it Go consults the Unicode category tables Lu and Nd, which
 * this model does not carry. No general property proved in this project depends on
 * these bodies; only the concrete password examples do.
 */
module Unicode {

  type String = seq<char>

  /** unicode.IsSpace: '\t', '\n', '\v', '\f', '\r', ' ', U+0085, U+00A0 and the
      remaining White_Space code points. */
  predicate IsSpace(c: char) {
    || c == '\t' || c == '\n' || c == '\U{000B}' || c == '\U{000C}' || c == '\r' || c == ' '
    || c == '\U{0085}' || c == '\U{00A0}' || c == '\U{1680}'
    || ('\U{2000}' <= c <= '\U{200A}')
    || c == '\U{2028}' || c == '\U{2029}' || c == '\U{202F}' || c == '\U{205F}' || c == '\U{3000}'
  }

  /** unicode.IsUpper on Latin-1: A-Z, U+00C0..U+00D6 and U+00D8..U+00DE. */
  predicate IsUpper(c: char) {
    || ('A' <= c <= 'Z')
    || ('\U{00C0}' <= c <= '\U{00D6}')
    || ('\U{00D8}' <= c <= '\U{00DE}')
  }

  /** unicode.IsDigit on Latin-1: the ASCII decimal digits. */
  predicate IsDigit(c: char) {
    '0' <= c <= '9'
  }

  /** Number of bytes the rune takes in UTF-8. */
  function Utf8Width(c: char): (w: nat)
    ensures 1 <= w <= 4
    ensures w == 1 <==> c as int < 0x80
  {
    if c as int < 0x80 then 1
    else if c as int < 0x800 then 2
    else if c as int < 0x1_0000 then 3
    else 4
  }

  /** len(s) in Go: the byte length of the UTF-8 encoding. */
  function ByteLength(s: String): (n: nat)
    ensures n >= |s|
  {
    if s == [] then 0 else Utf8Width(s[0]) + ByteLength(s[1..])
  }
}
