/** White space as the standard library's `trim` sees it: the characters of the Unicode White_Space property. */
module Text {
  predicate IsWhiteSpace(c: char) {
    var n := c as int;
    || 0x09 <= n <= 0x0D || n == 0x20 || n == 0x85 || n == 0xA0 || n == 0x1680 || 0x2000 <= n <= 0x200A
    || n == 0x2028 || n == 0x2029 || n == 0x202F || n == 0x205F || n == 0x3000
  }

  // Nothing is left of the text once it is trimmed.
  predicate Blank(s: string) {
    forall c :: c in s ==> IsWhiteSpace(c)
  }
}
