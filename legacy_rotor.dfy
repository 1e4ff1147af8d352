/** src/Core/Rotor.py: the oldest dictionary-wired rotor on contacts 1..26.
    Its circuits take and return plain ints with no range check on either
    side; the return circuit finds its key with the Python 2 idiom
    `wiring.keys()[wiring.values().index(contact)]`. The circuits read only
    the wiring and the position, and `WillStepNext` only the position and the
    notch locations, so they are modelled as functions of those, which the machine of src/Core/enigma_machine.py calls rotor by rotor. */
module LegacyRotor {
  import opened Wrappers
  import opened PyValues
  import opened PyDicts
  import opened OneBased

  class Rotor {
    const name: string
    const wiring: Dict
    const notches: seq<PyValue>
    var position: Pin
    var ringSetting: Pin

    /** The constructor once its wiring checks have passed. */
    constructor (name: string, wiring: Dict, notches: seq<PyValue>)
      ensures this.name == name && this.wiring == wiring && this.notches == notches
      ensures position == 1 && ringSetting == 1
    {
      this.name := name;
      this.notches := notches;
      position := 1;
      ringSetting := 1;
      this.wiring := wiring;
    }

    /** `Rotor(name, wiring, notchLocations)`: raises unless the wiring is a
        dict of 26 entries. */
    static method Create(name: string, wiring: PyValue, notches: seq<PyValue>) returns (r: Result<Rotor>)
      ensures r.Ok? <==> wiring.PyDict? && |wiring.d| == NoOfRotorContacts
      ensures !wiring.PyDict? ==> r == Err(ValueError("Incompatible rotor wiring diagram"))
      ensures wiring.PyDict? && |wiring.d| != NoOfRotorContacts ==> r == Err(ValueError("Incomplete wiring diagram"))
      ensures r.Ok? ==> (fresh(r.value) &&
        r.value.name == name && r.value.wiring == wiring.d && r.value.notches == notches &&
        r.value.position == 1 && r.value.ringSetting == 1)
    {
      if !wiring.PyDict? {
        return Err(ValueError("Incompatible rotor wiring diagram"));
      }
      if |wiring.d| != NoOfRotorContacts {
        return Err(ValueError("Incomplete wiring diagram"));
      }
      var rotor := new Rotor(name, wiring.d, notches);
      return Ok(rotor);
    }

    /** The `Position` setter: accepts 1..26 only. */
    method SetPosition(value: int) returns (o: Outcome)
      modifies this`position
      ensures o == if 1 <= value <= NoOfRotorContacts then Pass else Fail(ValueError("Invalid rotor positions"))
      ensures position == if o.Pass? then value else old(position)
      ensures ringSetting == old(ringSetting)
    {
      if value < 1 || value > NoOfRotorContacts {
        return Fail(ValueError("Invalid rotor positions"));
      }
      position := value;
      return Pass;
    }

    /** The `RingSetting` setter: accepts 1..26 only. */
    method SetRingSetting(value: int) returns (o: Outcome)
      modifies this`ringSetting
      ensures o == if 1 <= value <= NoOfRotorContacts then Pass else Fail(ValueError("Invalid ring positions"))
      ensures ringSetting == if o.Pass? then value else old(ringSetting)
      ensures position == old(position)
    {
      if value < 1 || value > NoOfRotorContacts {
        return Fail(ValueError("Invalid ring positions"));
      }
      ringSetting := value;
      return Pass;
    }

    /** `Step`. */
    method Step()
      modifies this`position
      ensures position == NextPosition(old(position))
      ensures ringSetting == old(ringSetting)
    {
      if position == NoOfRotorContacts {
        position := 1;
      } else {
        position := position + 1;
      }
    }
  }

  /** `WillStepNext()` of a rotor at this position with these notch
      locations: whether the position itself is one of them. */
  function WillStepNext(position: Pin, notches: seq<PyValue>): bool {
    PyInt(position) in notches
  }

  /** `ForwardCircuit(contact)` of a rotor with this wiring at this position:
      a shifted contact that is not a key raises KeyError; the output is not
      range checked. */
  function ForwardCircuit(wiring: Dict, position: Pin, contact: int): (r: Result<int>)
    ensures r.Err? <==> !HasKey(wiring, ShiftIn(contact, position))
    ensures r.Err? ==> r.error == KeyError
    ensures r.Ok? && 1 <= Get(wiring, ShiftIn(contact, position)).value <= NoOfRotorContacts ==>
              1 <= r.value <= NoOfRotorContacts && ShiftIn(r.value, position) == Get(wiring, ShiftIn(contact, position)).value
  {
    match Get(wiring, ShiftIn(contact, position))
    case None => Err(KeyError)
    case Some(out) =>
      if 1 <= out <= NoOfRotorContacts then ShiftsInverse(out, position); Ok(ShiftOut(out, position))
      else Ok(ShiftOut(out, position))
  }

  /** `ReturnCircuit(contact)`: the first key holding the shifted contact as
      its value, shifted back; `list.index` raises when no value matches. */
  function ReturnCircuit(wiring: Dict, position: Pin, contact: int): (r: Result<int>)
    ensures r.Err? <==> !HasValue(wiring, ShiftIn(contact, position))
    ensures r.Err? ==> r.error == NotInSequence
  {
    match FirstKeyWithValue(wiring, ShiftIn(contact, position))
    case None => Err(NotInSequence)
    case Some(key) => Ok(ShiftOut(key, position))
  }

  /** On a rotor wiring the forward circuit takes every contact to a contact. */
  lemma ForwardIsContact(wiring: Dict, position: Pin, c: Pin)
    requires IsRotorWiring(wiring)
    ensures ForwardCircuit(wiring, position, c).Ok?
    ensures 1 <= ForwardCircuit(wiring, position, c).value <= NoOfRotorContacts
  {
    ShiftsInverse(c, position);
    var i := WiringItem(wiring, ShiftIn(c, position));
    ShiftsInverse(wiring[i].1, position);
  }

  /** At position 1 no offset applies: the forward circuit is `wiring[c]`. */
  lemma ForwardAtFirstPosition(wiring: Dict, c: Pin)
    requires IsRotorWiring(wiring)
    ensures ForwardCircuit(wiring, 1, c) == Ok(Get(wiring, c).value)
  {
    var i := WiringItem(wiring, c);
  }

  /** On a rotor wiring the forward circuit is the wiring conjugated by the
      rotation through the position, modulo 26. */
  lemma ForwardIsRotation(wiring: Dict, position: Pin, c: Pin)
    requires IsRotorWiring(wiring)
    ensures var input := (c + position - 2) % 26 + 1;
      Get(wiring, input).Some? &&
      ForwardCircuit(wiring, position, c) == Ok((Get(wiring, input).value - position) % 26 + 1)
  {
    ShiftedLookupIsRotation(wiring, c, position);
  }

  /** On a rotor wiring the return circuit takes every contact to a contact. */
  lemma ReturnIsContact(wiring: Dict, position: Pin, c: Pin)
    requires IsRotorWiring(wiring)
    ensures ReturnCircuit(wiring, position, c).Ok?
    ensures 1 <= ReturnCircuit(wiring, position, c).value <= NoOfRotorContacts
  {
    ShiftsInverse(c, position);
    var i := WiringItemOfValue(wiring, ShiftIn(c, position));
    ShiftsInverse(wiring[i].0, position);
  }

  /** Backward undoes forward at any position of a rotor wiring. */
  lemma ReturnUndoesForward(wiring: Dict, position: Pin, c: Pin)
    requires IsRotorWiring(wiring)
    ensures ForwardCircuit(wiring, position, c).Ok?
    ensures ReturnCircuit(wiring, position, ForwardCircuit(wiring, position, c).value) == Ok(c)
  {
    ShiftsInverse(c, position);
    var i := WiringItem(wiring, ShiftIn(c, position));
    ShiftsInverse(wiring[i].1, position);
  }

  /** Forward undoes backward at any position of a rotor wiring. */
  lemma ForwardUndoesReturn(wiring: Dict, position: Pin, c: Pin)
    requires IsRotorWiring(wiring)
    ensures ReturnCircuit(wiring, position, c).Ok?
    ensures ForwardCircuit(wiring, position, ReturnCircuit(wiring, position, c).value) == Ok(c)
  {
    ShiftsInverse(c, position);
    var i := WiringItemOfValue(wiring, ShiftIn(c, position));
    ShiftsInverse(wiring[i].0, position);
  }

  /** With the notch locations given as ints, the rotor signals exactly at
      those positions. */
  lemma WillStepNextAtNotches(position: Pin, notchPins: seq<int>)
    ensures WillStepNext(position, seq(|notchPins|, i requires 0 <= i < |notchPins| => PyInt(notchPins[i])))
            <==> position in notchPins
  {
    var notches := seq(|notchPins|, i requires 0 <= i < |notchPins| => PyInt(notchPins[i]));
    if WillStepNext(position, notches) {
      var i :| 0 <= i < |notches| && notches[i] == PyInt(position);
    }
    if position in notchPins {
      var i :| 0 <= i < |notchPins| && notchPins[i] == position;
      assert notches[i] == PyInt(position);
    }
  }
}
