/** Character classes used by the regular expressions of the slug and
    word-count code. */
module Chars {

  /** JavaScript's `\s`: the WhiteSpace and LineTerminator code points of
      ECMAScript (TAB, VT, FF, SP, NBSP, ZWNBSP, the Zs space separators, LF,
      CR, LS and PS). */
  predicate IsSpace(c: char) {
    || c == '\t' || c == '\n' || c == '\U{000B}' || c == '\U{000C}' || c == '\r'
    || c == ' ' || c == '\U{00A0}' || c == '\U{1680}'
    || ('\U{2000}' <= c <= '\U{200A}')
    || c == '\U{2028}' || c == '\U{2029}' || c == '\U{202F}' || c == '\U{205F}'
    || c == '\U{3000}' || c == '\U{FEFF}'
  }

  predicate NotSpace(c: char) {
    !IsSpace(c)
  }

  predicate IsHyphen(c: char) {
    c == '-'
  }

  /** A separator of the words in a slug's filtered text: whitespace or `-`. */
  predicate IsSep(c: char) {
    IsSpace(c) || c == '-'
  }

  predicate IsUpper(c: char) {
    'A' <= c <= 'Z'
  }

  predicate IsDigit(c: char) {
    '0' <= c <= '9'
  }

  /** `[a-z0-9]`: what a slug keeps of a title's text. */
  predicate IsLowerAlnum(c: char) {
    ('a' <= c <= 'z') || ('0' <= c <= '9')
  }

  /** `[a-z0-9\s-]`: the characters the slug's filtering step keeps. */
  predicate IsKept(c: char) {
    IsLowerAlnum(c) || IsSpace(c) || c == '-'
  }

  /** `[a-z0-9-]`: the alphabet of a slug. */
  predicate IsSlugChar(c: char) {
    IsLowerAlnum(c) || c == '-'
  }

  /** `toLowerCase` on one character, restricted to ASCII: `A`-`Z` map to
      `a`-`z` and every other character is left alone. */
  function LowerChar(c: char): char {
    if IsUpper(c) then (c as int - 'A' as int + 'a' as int) as char else c
  }
}
