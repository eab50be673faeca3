/** Character and prefix tests shared by the header and interval parsers. */
module Strings {

  /** `re.match` of a literal pattern: `s` begins with `prefix`. */
  predicate StartsWith(s: string, prefix: string)
  {
    |prefix| <= |s| && s[..|prefix|] == prefix
  }

  /** The class `[0-9]`. */
  predicate IsDigit(c: char)
  {
    '0' <= c <= '9'
  }
}
