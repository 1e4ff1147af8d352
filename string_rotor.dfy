/** The rotor whose Python text is stored in src/libEnigmaSimulator/Rotor.cpp:
    a rotor wired by a 26-letter string, working on the 0-based contacts
    A = 0 .. Z = 25. This is the rotor the simulation machine builds. */
module StringRotor {
  import opened Wrappers
  import opened PyValues
  import opened Contacts

  const MaxContactNo: int := 25
  const WiringLength: int := 26

  /** A wiring string of the length the constructor demands. */
  type Wiring = w: string | |w| == WiringLength
    witness "ABCDEFGHIJKLMNOPQRSTUVWXYZ"

  /** A wiring string that is a permutation of the 26 letters: 26 letters,
      none repeated, every letter present. */
  predicate IsPermutation(w: string) {
    |w| == WiringLength &&
    (forall i :: 0 <= i < |w| ==> IsLetter(w[i])) &&
    (forall i, j :: 0 <= i < j < |w| ==> w[i] != w[j]) &&
    (forall c: Contact :: LetterOf(c) in w)
  }

  /** `str.index`: the first index of `ch` in `s`, if any. */
  function IndexOf(s: string, ch: char): (r: Option<nat>)
    ensures r.Some? ==> r.value < |s| && s[r.value] == ch &&
                        forall k :: 0 <= k < r.value ==> s[k] != ch
    ensures r.None? ==> forall k :: 0 <= k < |s| ==> s[k] != ch
  {
    IndexFrom(s, ch, 0)
  }

  /** The first index at or after `from` holding `ch`. */
  function IndexFrom(s: string, ch: char, from: nat): (r: Option<nat>)
    requires from <= |s|
    requires forall k :: 0 <= k < from ==> s[k] != ch
    ensures r.Some? ==> from <= r.value < |s| && s[r.value] == ch &&
                        forall k :: 0 <= k < r.value ==> s[k] != ch
    ensures r.None? ==> forall k :: 0 <= k < |s| ==> s[k] != ch
    decreases |s| - from
  {
    if from == |s| then None
    else if s[from] == ch then Some(from)
    else IndexFrom(s, ch, from + 1)
  }

  /** In a string with no repeated character, `index` finds each character
      at its own position. */
  lemma IndexOfDistinct(s: string, i: nat)
    requires i < |s|
    requires forall a, b :: 0 <= a < b < |s| ==> s[a] != s[b]
    ensures IndexOf(s, s[i]) == Some(i)
  {
  }

  /** `_determine_next_position`: the hand-written wrap of an offset contact. */
  function DetermineNextPosition(x: int): int {
    if x == 0 || x == 25 then x
    else if x >= 1 then
      (if x > MaxContactNo then x % MaxContactNo - 1 else x)
    else (MaxContactNo + 1) + x
  }

  /** The wrap agrees with reduction modulo 26 on -26..49, the range the
      rotor feeds it for positions 0..24, and yields the invalid contact -1
      for 50, the sum of contact Z and position 25. */
  lemma DetermineNextPositionIsMod26(x: int)
    ensures -26 <= x <= 49 ==> DetermineNextPosition(x) == x % 26
    ensures x == 50 ==> DetermineNextPosition(x) == -1
  {
    if 26 <= x <= 49 {
      assert x % MaxContactNo == x - 25;
    }
  }

  /** `encrypt(contact, forward)` on a rotor with this wiring and position.
      The contact is shifted by the position, mapped through the wiring
      (forwards) or its inverse found by `wiring.index` (backwards), and
      shifted back. A shifted contact outside 0..25 raises the Enum's
      ValueError (already when the debug message names it); a wiring
      character that names no contact raises KeyError; a letter missing from
      the wiring raises the ValueError of `str.index`. */
  function Encrypt(wiring: string, position: Contact, contact: Contact, forward: bool): (r: Result<Contact>)
    requires |wiring| == WiringLength
    ensures r.Ok? && forward ==>
      IsLetter(wiring[(contact + position) % 26]) &&
      r.value == (ContactOf(wiring[(contact + position) % 26]) - position) % 26
  {
    DetermineNextPositionIsMod26(contact + position);
    var cp := DetermineNextPosition(contact + position);
    if !(0 <= cp < 26) then Err(EnumValueError(cp))
    else if forward then
      (if IsLetter(wiring[cp]) then Ok(Unshift(ContactOf(wiring[cp]), position)) else Err(KeyError))
    else
      match IndexOf(wiring, LetterOf(cp))
      case None => Err(NotInSequence)
      case Some(i) => Ok(Unshift(i, position))
  }

  /** STEP 3 of `encrypt`: remove the position offset from an output contact. */
  function Unshift(out: Contact, position: Contact): (c: Contact)
    ensures c == (out - position) % 26
  {
    DetermineNextPositionIsMod26(out - position);
    DetermineNextPosition(out - position)
  }

  /** On a permutation wiring `encrypt` fails exactly for contact Z at
      position Z, whose shifted contact is -1. */
  lemma EncryptFailsOnlyAtZZ(wiring: string, position: Contact, contact: Contact, forward: bool)
    requires IsPermutation(wiring)
    ensures Encrypt(wiring, position, contact, forward).Err? <==> contact == 25 && position == 25
  {
    DetermineNextPositionIsMod26(contact + position);
    if contact + position != 50 && !forward {
      var cp := (contact + position) % 26;
      LetterInPermutation(wiring, LetterOf(cp));
    }
  }

  /** Every letter occurs in a permutation wiring. */
  lemma LetterInPermutation(w: string, ch: char)
    requires IsPermutation(w) && IsLetter(ch)
    ensures IndexOf(w, ch).Some?
  {
    assert LetterOf(ContactOf(ch)) in w;
  }

  /** STEP 1 after STEP 3 gives the output contact back, at a position
      other than 25. */
  lemma ShiftAfterUnshift(out: Contact, position: Contact)
    requires position <= 24
    ensures DetermineNextPosition(Unshift(out, position) + position) == out
  {
    var u := Unshift(out, position);
    DetermineNextPositionIsMod26(u + position);
    assert (u + position) % 26 == out;
  }

  /** STEP 3 after STEP 1 gives the input contact back, except for the sum
      50 that STEP 1 turns into -1. */
  lemma UnshiftAfterShift(c: Contact, position: Contact)
    requires c + position != 50
    ensures DetermineNextPosition(c + position) == (c + position) % 26
    ensures Unshift((c + position) % 26, position) == c
  {
    DetermineNextPositionIsMod26(c + position);
    assert ((c + position) % 26 - position) % 26 == c;
  }

  /** Backward `encrypt` undoes forward `encrypt` at the same position, for a
      permutation wiring and a position other than 25. */
  lemma BackwardUndoesForward(wiring: string, position: Contact, contact: Contact)
    requires IsPermutation(wiring) && position <= 24
    ensures Encrypt(wiring, position, contact, true).Ok?
    ensures Encrypt(wiring, position, Encrypt(wiring, position, contact, true).value, false) == Ok(contact)
  {
    UnshiftAfterShift(contact, position);
    var cp := (contact + position) % 26;
    var l := ContactOf(wiring[cp]);
    var out := Unshift(l, position);
    assert Encrypt(wiring, position, contact, true) == Ok(out);
    ShiftAfterUnshift(l, position);
    LetterInPermutation(wiring, LetterOf(l));
    IndexOfDistinct(wiring, cp);
    assert Encrypt(wiring, position, out, false) == Ok(Unshift(cp, position));
  }

  /** Forward `encrypt` undoes backward `encrypt` at the same position, for a
      permutation wiring and a position other than 25. */
  lemma ForwardUndoesBackward(wiring: string, position: Contact, contact: Contact)
    requires IsPermutation(wiring) && position <= 24
    ensures Encrypt(wiring, position, contact, false).Ok?
    ensures Encrypt(wiring, position, Encrypt(wiring, position, contact, false).value, true) == Ok(contact)
  {
    UnshiftAfterShift(contact, position);
    var cp := (contact + position) % 26;
    LetterInPermutation(wiring, LetterOf(cp));
    var i := IndexOf(wiring, LetterOf(cp)).value;
    var out := Unshift(i, position);
    assert Encrypt(wiring, position, contact, false) == Ok(out);
    ShiftAfterUnshift(i, position);
    assert ContactOf(wiring[i]) == cp;
    assert Encrypt(wiring, position, out, true) == Ok(Unshift(cp, position));
  }

  /** `step`: the position advances modulo 25, not 26. */
  function StepPosition(position: Contact): (p: Contact)
    ensures p < 25
    ensures position < 24 ==> p == position + 1
    ensures position == 24 ==> p == 0
    ensures position == 25 ==> p == 1
  {
    (position + 1) % MaxContactNo
  }

  /** `will_step_next`: whether the letter name of the position is one of the
      notch locations. */
  function WillStepNext(position: Contact, notches: seq<PyValue>): bool {
    PyStr([LetterOf(position)]) in notches
  }

  /** With notch locations given as one-letter names, the rotor signals
      exactly at the positions those letters name. */
  lemma WillStepNextAtNotchLetters(position: Contact, notches: seq<char>)
    requires forall i :: 0 <= i < |notches| ==> IsLetter(notches[i])
    ensures WillStepNext(position, seq(|notches|, i requires 0 <= i < |notches| => PyStr([notches[i]])))
       <==> exists i :: 0 <= i < |notches| && ContactOf(notches[i]) == position
  {
    var ns := seq(|notches|, i requires 0 <= i < |notches| => PyStr([notches[i]]));
    if WillStepNext(position, ns) {
      var i :| 0 <= i < |ns| && ns[i] == PyStr([LetterOf(position)]);
      assert notches[i] == LetterOf(position);
    }
    if exists i :: 0 <= i < |notches| && ContactOf(notches[i]) == position {
      var i :| 0 <= i < |notches| && ContactOf(notches[i]) == position;
      assert ns[i] == PyStr([LetterOf(position)]);
    }
  }

  /** A rotor. Its position and ring setting change in place. */
  class Rotor {
    const name: string
    const wiring: Wiring
    const notches: seq<PyValue>
    var position: Contact
    var ringSetting: int

    /** The constructor once its wiring checks have passed. */
    constructor (name: string, wiring: Wiring, notches: seq<PyValue>)
      ensures this.name == name && this.wiring == wiring && this.notches == notches
      ensures position == 0 && ringSetting == 0
    {
      this.name := name;
      this.wiring := wiring;
      this.notches := notches;
      position := 0;
      ringSetting := 0;
    }

    /** `Rotor(name, wiring, notches, logger)`: raises unless the wiring is a
        string of 26 characters. */
    static method Create(name: string, wiring: PyValue, notches: seq<PyValue>) returns (r: Result<Rotor>)
      ensures r.Ok? <==> wiring.PyStr? && |wiring.s| == WiringLength
      ensures !wiring.PyStr? ==> r == Err(ValueError("Rotor wiring is not a string"))
      ensures wiring.PyStr? && |wiring.s| != WiringLength ==> r == Err(ValueError("Rotor wiring incorrect length"))
      ensures r.Ok? ==> (fresh(r.value) &&
        r.value.name == name && r.value.wiring == wiring.s && r.value.notches == notches &&
        r.value.position == 0 && r.value.ringSetting == 0)
    {
      if !wiring.PyStr? {
        return Err(ValueError("Rotor wiring is not a string"));
      }
      if |wiring.s| != WiringLength {
        return Err(ValueError("Rotor wiring incorrect length"));
      }
      var rotor := new Rotor(name, wiring.s, notches);
      return Ok(rotor);
    }

    /** The `position` setter: accepts 0..25 only. */
    method SetPosition(value: int) returns (o: Outcome)
      modifies this`position
      ensures o == if 0 <= value <= MaxContactNo then Pass else Fail(ValueError("Invalid rotor positions"))
      ensures position == if o.Pass? then value else old(position)
      ensures ringSetting == old(ringSetting)
    {
      if value >= 0 && value <= MaxContactNo {
        position := value;
        return Pass;
      }
      return Fail(ValueError("Invalid rotor positions"));
    }

    /** The `ring_setting` setter: accepts 1..25 only. */
    method SetRingSetting(value: int) returns (o: Outcome)
      modifies this
      ensures o == if 1 <= value <= MaxContactNo then Pass else Fail(ValueError("Invalid ring positions"))
      ensures ringSetting == if o.Pass? then value else old(ringSetting)
      ensures position == old(position)
    {
      if value < 1 || value > MaxContactNo {
        return Fail(ValueError("Invalid ring positions"));
      }
      ringSetting := value;
      return Pass;
    }

    /** `step`. */
    method Step()
      modifies this`position
      ensures position == StepPosition(old(position))
      ensures ringSetting == old(ringSetting)
    {
      position := (position + 1) % MaxContactNo;
    }
  }
}
