/** The 1-based rotor contacts of the older rotors, A = 1 .. Z = 26
    (NO_OF_ROTOR_CONTACTS = 26), and the hand-written wrap arithmetic their
    circuits share: STEP 1 adds the rotor offset to the incoming contact and
    subtracts 26 once, STEP 3 removes the offset from the outgoing contact
    and adds 26 once. */
module OneBased {
  import opened Wrappers
  import opened PyDicts

  const NoOfRotorContacts: int := 26

  type Pin = p: int | 1 <= p <= NoOfRotorContacts witness 1

  /** `RotorContact(p).name`. */
  function PinName(p: Pin): (name: string)
    ensures |name| == 1 && 'A' <= name[0] <= 'Z'
  {
    [('A' as int + p - 1) as char]
  }

  lemma PinNameInjective(p: Pin, q: Pin)
    ensures PinName(p) == PinName(q) <==> p == q
  {
    if PinName(p) == PinName(q) {
      assert PinName(p)[0] == PinName(q)[0];
    }
  }

  /** STEP 1: `contact + position - 1`, less 26 when above 26. */
  function ShiftIn(contact: int, position: int): int {
    var x := contact + position - 1;
    if x > NoOfRotorContacts then x - NoOfRotorContacts else x
  }

  /** STEP 3: for a position above 1, `out - (position - 1)`, or
      `26 - ((position - 1) - out)` when that is not positive. */
  function ShiftOut(out: int, position: int): int {
    if position > 1 then
      (if out - (position - 1) <= 0 then NoOfRotorContacts - ((position - 1) - out)
       else out - (position - 1))
    else out
  }

  /** On contacts and positions 1..26 STEP 1 is addition modulo 26 and lands
      on a contact. */
  lemma ShiftInIsModular(contact: Pin, position: Pin)
    ensures ShiftIn(contact, position) == (contact + position - 2) % 26 + 1
  {
  }

  /** On contacts and positions 1..26 STEP 3 is subtraction modulo 26 and
      lands on a contact; above 26 it can leave the contact range. */
  lemma ShiftOutIsModular(out: Pin, position: Pin)
    ensures ShiftOut(out, position) == (out - position) % 26 + 1
  {
  }

  /** At a fixed position STEP 3 undoes STEP 1 and STEP 1 undoes STEP 3. */
  lemma ShiftsInverse(c: Pin, position: Pin)
    ensures 1 <= ShiftIn(c, position) <= 26 && ShiftOut(ShiftIn(c, position), position) == c
    ensures 1 <= ShiftOut(c, position) <= 26 && ShiftIn(ShiftOut(c, position), position) == c
  {
    ShiftInIsModular(c, position);
    ShiftOutIsModular(c, position);
    ShiftOutIsModular(ShiftIn(c, position), position);
    ShiftInIsModular(ShiftOut(c, position), position);
  }

  /** Through a rotor wiring, STEP 1, the lookup and STEP 3 are the wiring
      conjugated by the rotation through the position, modulo 26. */
  lemma ShiftedLookupIsRotation(d: Dict, c: Pin, position: Pin)
    requires IsRotorWiring(d)
    ensures var input := ShiftIn(c, position);
      input == (c + position - 2) % 26 + 1 && Get(d, input).Some? &&
      1 <= Get(d, input).value <= NoOfRotorContacts &&
      ShiftOut(Get(d, input).value, position) == (Get(d, input).value - position) % 26 + 1
  {
    var input := ShiftIn(c, position);
    ShiftInIsModular(c, position);
    assert HasKey(d, input);
    var i :| 0 <= i < |d| && d[i].0 == input;
    var out: Pin := d[i].1;
    assert Get(d, input) == Some(out);
    ShiftOutIsModular(out, position);
  }

  /** At position 1 both steps leave a contact alone. */
  lemma ShiftsAtFirstPosition(c: int)
    ensures ShiftIn(c, 1) == (if c > 26 then c - 26 else c) && ShiftOut(c, 1) == c
  {
  }

  /** `step`: 26 wraps to 1, anything else advances by one. */
  function NextPosition(position: Pin): (p: Pin)
    ensures p == position % 26 + 1
  {
    if position == NoOfRotorContacts then 1 else position + 1
  }

  /** A wiring dictionary of a rotor: 26 items between contacts, every
      contact a key and a value, no value twice. */
  predicate IsRotorWiring(d: Dict) {
    |d| == NoOfRotorContacts &&
    ValuesUnique(d) &&
    (forall i :: 0 <= i < |d| ==> 1 <= d[i].0 <= NoOfRotorContacts && 1 <= d[i].1 <= NoOfRotorContacts) &&
    (forall p: Pin :: HasKey(d, p) && HasValue(d, p))
  }

  /** The item of a rotor wiring keyed by a contact. */
  lemma WiringItem(d: Dict, p: Pin) returns (i: nat)
    requires IsRotorWiring(d)
    ensures i < |d| && d[i].0 == p && 1 <= d[i].1 <= NoOfRotorContacts
    ensures Get(d, p) == Some(d[i].1) && Get(Invert(d), d[i].1) == Some(p)
    ensures FirstKeyWithValue(d, d[i].1) == Some(p)
  {
    assert HasKey(d, p);
    i :| 0 <= i < |d| && d[i].0 == p;
    ReverseLookups(d, i);
  }

  /** The item of a rotor wiring holding a contact as its value. */
  lemma WiringItemOfValue(d: Dict, p: Pin) returns (i: nat)
    requires IsRotorWiring(d)
    ensures i < |d| && d[i].1 == p && 1 <= d[i].0 <= NoOfRotorContacts
    ensures Get(d, d[i].0) == Some(p) && Get(Invert(d), p) == Some(d[i].0)
    ensures FirstKeyWithValue(d, p) == Some(d[i].0)
  {
    assert HasValue(d, p);
    i :| 0 <= i < |d| && d[i].1 == p;
    ReverseLookups(d, i);
  }
}
