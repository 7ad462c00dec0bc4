/** The characters a request may be made of, by RFC 1945, section 2.2. */
module RequestAlphabet {

  const PUNCTUATION := "!#$%&'*+-.^_`|~"

  /** Letters, digits and the punctuation that is no separator. */
  predicate TokenLetter(c: char) {
    'A' <= c <= 'Z' || 'a' <= c <= 'z' || '0' <= c <= '9' || c in PUNCTUATION
  }

  /** Codes 0 to 31, and 127. */
  predicate Control(c: char) {
    c as int < 32 || c as int == 127
  }

  /** A space or a horizontal tab. */
  predicate Blank(c: char) {
    c as int == 32 || c as int == 9
  }
}
