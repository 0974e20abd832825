/**
 * The textual form of a UUID (section 3 of RFC 4122): 32 hexadecimal digits
 * in groups of 8-4-4-4-12 separated by hyphens.
 */
module Uuid {

  predicate IsLowerHexDigit(c: char) {
    '0' <= c <= '9' || 'a' <= c <= 'f'
  }

  predicate IsHexDigit(c: char) {
    IsLowerHexDigit(c) || 'A' <= c <= 'F'
  }

  /** Positions of the four hyphens in the 36-character form. */
  predicate IsHyphenPosition(i: int) {
    i == 8 || i == 13 || i == 18 || i == 23
  }

  /** The 8-4-4-4-12 layout with every digit accepted by `digit`. */
  predicate HasUuidLayout(s: string, digit: char -> bool) {
    |s| == 36 &&
    forall i :: 0 <= i < 36 ==> if IsHyphenPosition(i) then s[i] == '-' else digit(s[i])
  }

  /**
   * The form produced by the uuid generator and required in project
   * filenames: lower-case hexadecimal digits only.
   */
  predicate IsLowerUuid(s: string) {
    HasUuidLayout(s, IsLowerHexDigit)
  }

  /** The uuid library's `validate`: the layout in either letter case. */
  predicate ValidUuid(s: string) {
    HasUuidLayout(s, IsHexDigit)
  }

  lemma LowerUuidIsValid(s: string)
    requires IsLowerUuid(s)
    ensures ValidUuid(s) && s != ""
  {
  }
}
