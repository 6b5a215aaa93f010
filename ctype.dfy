/** Character classes of <ctype.h> in the C locale. */
module CType {

  /** isdigit */
  predicate IsDigit(c: char) {
    '0' <= c <= '9'
  }

  /** isalpha */
  predicate IsAlpha(c: char) {
    'a' <= c <= 'z' || 'A' <= c <= 'Z'
  }

  /** isspace: blank, tab, newline, vertical tab, form feed, carriage return */
  predicate IsSpace(c: char) {
    c == ' ' || '\t' <= c <= '\r'
  }

  /** The characters a number literal is read from: digits and the decimal point. */
  predicate IsNumeral(c: char) {
    IsDigit(c) || c == '.'
  }
}
