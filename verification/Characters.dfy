/** Classes of characters. */
module Characters {

  predicate IsDigit(c: char) {
    '0' <= c <= '9'
  }

  /** isdigit in the C locale. */
  lemma DigitsAre(c: char)
    ensures IsDigit(c) <==> c in "0123456789"
  {
  }
}
