/** src/Core/RotorContact.py: conversion between the letters A..Z (either
    case) and the contact numbers 1..26, by the ASCII offset 64. Strings are
    Python 2 byte strings here, so `upper` changes only a..z. */
module RotorContact {
  import opened Wrappers
  import opened PyValues
  import opened OneBased

  const AsciiToContactOffset: int := 64

  /** `str.upper` on one byte. */
  function Upper(ch: char): (u: char)
    ensures 'a' <= ch <= 'z' ==> u as int == ch as int - 32
    ensures !('a' <= ch <= 'z') ==> u == ch
  {
    if 'a' <= ch <= 'z' then (ch as int - 32) as char else ch
  }

  predicate IsAsciiLetter(ch: char) {
    'A' <= ch <= 'Z' || 'a' <= ch <= 'z'
  }

  /** `CharacterToContact(character)`. */
  function CharacterToContact(character: PyValue): (r: Result<Pin>)
    ensures !character.PyStr? ==> r == Err(ValueError("character is not a string"))
    ensures character.PyStr? && |character.s| != 1 ==> r == Err(ValueError("character is more than one character!"))
    ensures character.PyStr? && |character.s| == 1 ==>
      (r.Ok? <==> IsAsciiLetter(character.s[0])) &&
      (r.Err? ==> r.error == ValueError("invalid contact number"))
  {
    if !character.PyStr? then Err(ValueError("character is not a string"))
    else if |character.s| != 1 then Err(ValueError("character is more than one character!"))
    else
      var contactNo := Upper(character.s[0]) as int - AsciiToContactOffset;
      if contactNo < 1 || contactNo > NoOfRotorContacts then Err(ValueError("invalid contact number"))
      else Ok(contactNo)
  }

  /** `ContactToCharacter(contact)`. */
  function ContactToCharacter(contact: PyValue): (r: Result<string>)
    ensures !contact.PyInt? ==> r == Err(ValueError("Contact number is not an integer"))
    ensures contact.PyInt? ==> (r.Ok? <==> 1 <= contact.i <= NoOfRotorContacts)
    ensures contact.PyInt? && r.Err? ==> r.error == ValueError("invalid contact value")
    ensures r.Ok? ==> |r.value| == 1 && 'A' <= r.value[0] <= 'Z'
  {
    if !contact.PyInt? then Err(ValueError("Contact number is not an integer"))
    else if contact.i < 1 || contact.i > NoOfRotorContacts then Err(ValueError("invalid contact value"))
    else Ok([(contact.i + AsciiToContactOffset) as char])
  }

  /** A letter of either case goes to a contact and comes back upper case. */
  lemma LetterRoundTrip(ch: char)
    requires IsAsciiLetter(ch)
    ensures CharacterToContact(PyStr([ch])).Ok?
    ensures ContactToCharacter(PyInt(CharacterToContact(PyStr([ch])).value)) == Ok([Upper(ch)])
  {
  }

  /** A contact goes to a letter and comes back. */
  lemma ContactRoundTrip(n: Pin)
    ensures ContactToCharacter(PyInt(n)).Ok?
    ensures CharacterToContact(PyStr(ContactToCharacter(PyInt(n)).value)) == Ok(n)
  {
  }

  /** Conversion ignores case: a lower-case letter gives the contact of its
      upper-case form, 'a' and 'A' both 1. */
  lemma CaseInsensitive(ch: char)
    requires 'a' <= ch <= 'z'
    ensures CharacterToContact(PyStr([ch])) == CharacterToContact(PyStr([Upper(ch)]))
    ensures CharacterToContact(PyStr("a")) == CharacterToContact(PyStr("A")) == Ok(1)
  {
  }

  /** The contact numbers agree with the enumeration names of the other
      1-based modules. */
  lemma ContactToCharacterIsPinName(n: Pin)
    ensures ContactToCharacter(PyInt(n)) == Ok(PinName(n))
  {
  }
}
