/** The contacts of the C++ wiring classes. The wiring constructors number
    the letters of a layout string `(ch - 65) + 1`, so A = 1 .. Z = 26, and
    `kRotorContact_end` follows Z. The `RotorContactStr` table, declared in
    a header that is not part of this model, is taken to name contact k by
    the k-th letter of the alphabet. */
module CppContacts {
  import opened LetterTables

  const ContactEnd: int := 27
  const MaxWiringEntries: int := 26

  /** A contact A..Z. */
  predicate IsLetterContact(c: int) {
    1 <= c <= MaxWiringEntries
  }

  /** `(ch - 65) + 1`: the contact a layout character names. */
  function LayoutContact(ch: char): int {
    (ch as int - 65) + 1
  }

  /** `RotorContactStr[c]`. */
  function RotorContactStr(c: int): (ch: char)
    requires IsLetterContact(c)
    ensures 'A' <= ch <= 'Z' && LayoutContact(ch) == c
  {
    (c + 64) as char
  }

  /** An upper-case layout letter is named back by its own contact. */
  lemma LayoutLetterRoundTrip(ch: char)
    requires 'A' <= ch <= 'Z'
    ensures IsLetterContact(LayoutContact(ch)) && RotorContactStr(LayoutContact(ch)) == ch
  {
  }

  /** The contacts of a layout string, one per character. */
  function LayoutContacts(layout: string): (cs: seq<int>)
    ensures |cs| == |layout|
    ensures forall i :: 0 <= i < |layout| ==> cs[i] == LayoutContact(layout[i])
  {
    seq(|layout|, i requires 0 <= i < |layout| => LayoutContact(layout[i]))
  }

  /** Numbering the characters keeps them distinct. */
  lemma LayoutContactsDistinct(s: string)
    requires Distinct(s)
    ensures Distinct(LayoutContacts(s))
  {
  }

  /** A layout of 26 distinct upper-case letters. */
  predicate IsLetterLayout(s: string) {
    |s| == MaxWiringEntries && Distinct(s) && forall i :: 0 <= i < |s| ==> 'A' <= s[i] <= 'Z'
  }

  const DefaultSrcLayout: string := "ABCDEFGHIJKLMNOPQRSTUVWXYZ"

  /** `DEFAULT_SRC_LAYOUT` names contact i + 1 at index i. */
  lemma DefaultSrcLayoutIsIdentity()
    ensures IsLetterLayout(DefaultSrcLayout)
    ensures forall i :: 0 <= i < |DefaultSrcLayout| ==> LayoutContact(DefaultSrcLayout[i]) == i + 1
  {
    forall i | 0 <= i < |DefaultSrcLayout|
      ensures DefaultSrcLayout[i] as int == 'A' as int + i
    {
      assert DefaultSrcLayout == seq(26, k requires 0 <= k < 26 => ('A' as int + k) as char);
    }
  }
}
