/** enigma_simulator/simulation/rotor.py: a rotor wired by a dictionary
    between the 1-based contacts A = 1 .. Z = 26 of the `rotor_contact`
    module it imports. Its circuits take and return RotorContact members;
    building the result member raises ValueError for a value outside 1..26. */
module SimRotor {
  import opened Wrappers
  import opened PyValues
  import opened PyDicts
  import opened OneBased

  class Rotor {
    const name: string
    const wiring: Dict
    const reverseWiring: Dict
    const notches: seq<PyValue>
    var position: Pin
    var ringSetting: Pin

    /** `reverse_wiring` is the inverted `wiring`. */
    predicate Valid() {
      reverseWiring == Invert(wiring)
    }

    /** The constructor once its wiring checks have passed. */
    constructor (name: string, wiring: Dict, notches: seq<PyValue>)
      ensures Valid()
      ensures this.name == name && this.wiring == wiring && this.notches == notches
      ensures position == 1 && ringSetting == 1
    {
      this.name := name;
      this.notches := notches;
      position := 1;
      ringSetting := 1;
      this.wiring := wiring;
      reverseWiring := Invert(wiring);
    }

    /** `Rotor(name, wiring, notch_locations)`: raises unless the wiring is a
        dict of 26 entries. */
    static method Create(name: string, wiring: PyValue, notches: seq<PyValue>) returns (r: Result<Rotor>)
      ensures r.Ok? <==> wiring.PyDict? && |wiring.d| == NoOfRotorContacts
      ensures !wiring.PyDict? ==> r == Err(ValueError("Incompatible rotor wiring diagram"))
      ensures wiring.PyDict? && |wiring.d| != NoOfRotorContacts ==> r == Err(ValueError("Incomplete wiring diagram"))
      ensures r.Ok? ==> (fresh(r.value) && r.value.Valid() &&
        r.value.name == name && r.value.wiring == wiring.d && r.value.notches == notches &&
        r.value.position == 1 && r.value.ringSetting == 1)
    {
      if !wiring.PyDict? {
        return Err(ValueError("Incompatible rotor wiring diagram"));
      }
      if |wiring.d| != NoOfRotorContacts {
        return Err(ValueError("Incomplete wiring diagram"));
      }
      var rotor := new Rotor(name, wiring.d, notches);
      return Ok(rotor);
    }

    /** The `position` setter: accepts 1..26 only. */
    method SetPosition(value: int) returns (o: Outcome)
      modifies this
      ensures o == if 1 <= value <= NoOfRotorContacts then Pass else Fail(ValueError("Invalid rotor positions"))
      ensures position == if o.Pass? then value else old(position)
      ensures ringSetting == old(ringSetting)
    {
      if value < 1 || value > NoOfRotorContacts {
        return Fail(ValueError("Invalid rotor positions"));
      }
      position := value;
      return Pass;
    }

    /** The `ring_setting` setter: accepts 1..26 only. */
    method SetRingSetting(value: int) returns (o: Outcome)
      modifies this
      ensures o == if 1 <= value <= NoOfRotorContacts then Pass else Fail(ValueError("Invalid ring positions"))
      ensures ringSetting == if o.Pass? then value else old(ringSetting)
      ensures position == old(position)
    {
      if value < 1 || value > NoOfRotorContacts {
        return Fail(ValueError("Invalid ring positions"));
      }
      ringSetting := value;
      return Pass;
    }

    /** `step`. */
    method Step()
      modifies this
      ensures position == NextPosition(old(position))
      ensures ringSetting == old(ringSetting)
    {
      if position == NoOfRotorContacts {
        position := 1;
      } else {
        position := position + 1;
      }
    }

    /** `get_forward_circuit(contact)`: a shifted contact missing from the
        wiring raises KeyError, an output outside 1..26 the Enum's ValueError. */
    function GetForwardCircuit(contact: Pin): (r: Result<Pin>)
      reads this
      ensures r.Err? ==> r.error == KeyError || r.error.EnumValueError?
      ensures r.Err? && r.error == KeyError <==> !HasKey(wiring, ShiftIn(contact, position))
    {
      var input := ShiftIn(contact, position);
      match Get(wiring, input)
      case None => Err(KeyError)
      case Some(out) =>
        var final := ShiftOut(out, position);
        if 1 <= final <= NoOfRotorContacts then Ok(final) else Err(EnumValueError(final))
    }

    /** `get_return_circuit(contact)`: the same offsets around a lookup in
        `reverse_wiring`. */
    function GetReturnCircuit(contact: Pin): (r: Result<Pin>)
      reads this
      ensures r.Err? ==> r.error == KeyError || r.error.EnumValueError?
      ensures Valid() ==> (r.Err? && r.error == KeyError <==> !HasValue(wiring, ShiftIn(contact, position)))
    {
      var input := ShiftIn(contact, position);
      InvertHasKey(wiring, input);
      match Get(reverseWiring, input)
      case None => Err(KeyError)
      case Some(out) =>
        var final := ShiftOut(out, position);
        if 1 <= final <= NoOfRotorContacts then Ok(final) else Err(EnumValueError(final))
    }

    /** `will_step_next`: whether the name of the position is a notch location. */
    function WillStepNext(): bool
      reads this
    {
      PyStr(PinName(position)) in notches
    }
  }

  /** Backward undoes forward: at any position the return circuit sends the
      output of the forward circuit back to its input. */
  lemma ReturnUndoesForward(r: Rotor, c: Pin)
    requires r.Valid() && IsRotorWiring(r.wiring)
    ensures r.GetForwardCircuit(c).Ok? && r.GetReturnCircuit(r.GetForwardCircuit(c).value) == Ok(c)
  {
    var input := ShiftIn(c, r.position);
    ShiftsInverse(c, r.position);
    var i := WiringItem(r.wiring, input);
    ShiftsInverse(r.wiring[i].1, r.position);
  }

  /** Forward undoes backward. */
  lemma ForwardUndoesReturn(r: Rotor, c: Pin)
    requires r.Valid() && IsRotorWiring(r.wiring)
    ensures r.GetReturnCircuit(c).Ok? && r.GetForwardCircuit(r.GetReturnCircuit(c).value) == Ok(c)
  {
    var input := ShiftIn(c, r.position);
    ShiftsInverse(c, r.position);
    var i := WiringItemOfValue(r.wiring, input);
    ShiftsInverse(r.wiring[i].0, r.position);
  }

  /** At position 1 no offset applies: the forward circuit is the wiring. */
  lemma ForwardAtFirstPosition(r: Rotor, c: Pin)
    requires r.position == 1 && IsRotorWiring(r.wiring)
    ensures r.GetForwardCircuit(c) == Ok(Get(r.wiring, c).value)
  {
    var i := WiringItem(r.wiring, c);
  }

  /** On a rotor wiring the forward circuit is the wiring conjugated by the
      rotation through the position, modulo 26. */
  lemma ForwardIsRotation(r: Rotor, c: Pin)
    requires IsRotorWiring(r.wiring)
    ensures var input := (c + r.position - 2) % 26 + 1;
      Get(r.wiring, input).Some? &&
      r.GetForwardCircuit(c) == Ok((Get(r.wiring, input).value - r.position) % 26 + 1)
  {
    var p := r.position;
    ShiftedLookupIsRotation(r.wiring, c, p);
    assert r.GetForwardCircuit(c) == Ok(ShiftOut(Get(r.wiring, ShiftIn(c, p)).value, p));
  }

  /** With notch locations given as letter names, the rotor signals exactly
      at the positions those letters name. */
  lemma WillStepNextAtNamedNotches(r: Rotor, notchPins: seq<Pin>)
    requires r.notches == seq(|notchPins|, i requires 0 <= i < |notchPins| => PyStr(PinName(notchPins[i])))
    ensures r.WillStepNext() <==> r.position in notchPins
  {
    if r.WillStepNext() {
      var i :| 0 <= i < |r.notches| && r.notches[i] == PyStr(PinName(r.position));
      PinNameInjective(notchPins[i], r.position);
    }
    if r.position in notchPins {
      var i :| 0 <= i < |notchPins| && notchPins[i] == r.position;
      assert r.notches[i] == PyStr(PinName(r.position));
    }
  }
}
