/** The RotorContact enumeration of the simulation package: members A .. Z
    with the values 0 .. 25, and `name` the letter. */
module Contacts {

  type Contact = c: int | 0 <= c < 26

  predicate IsLetter(ch: char) { 'A' <= ch <= 'Z' }

  /** `RotorContact(c).name`. */
  function LetterOf(c: Contact): (ch: char)
    ensures IsLetter(ch)
  {
    ('A' as int + c) as char
  }

  /** `RotorContact[ch]` for a letter name. */
  function ContactOf(ch: char): (c: Contact)
    requires IsLetter(ch)
    ensures LetterOf(c) == ch
  {
    ch as int - 'A' as int
  }

  lemma ContactOfLetterOf(c: Contact)
    ensures ContactOf(LetterOf(c)) == c
  {
  }
}
