/** src/Core/rotor.py: the same dictionary-wired rotor on contacts 1..26,
    whose circuits take a RotorContact member and return a plain int. Each
    circuit logs the RotorContact member of its result (and the return
    circuit also that of the looked-up contact); building a member for a
    value outside 1..26 raises ValueError, so those values never come out. */
module CoreRotor {
  import opened Wrappers
  import opened PyValues
  import opened PyDicts
  import opened OneBased

  class Rotor {
    const name: string
    const wiring: Dict
    const reverseWiring: Dict
    const notches: seq<PyValue>
    var position: Pin
    var ringSetting: Pin

    /** `reverse_wiring` is the inverted `wiring`. */
    predicate Valid() {
      reverseWiring == Invert(wiring)
    }

    /** The constructor once its wiring checks have passed. */
    constructor (name: string, wiring: Dict, notches: seq<PyValue>)
      ensures Valid()
      ensures this.name == name && this.wiring == wiring && this.notches == notches
      ensures position == 1 && ringSetting == 1
    {
      this.name := name;
      this.notches := notches;
      position := 1;
      ringSetting := 1;
      this.wiring := wiring;
      reverseWiring := Invert(wiring);
    }

    /** `Rotor(name, wiring, notchLocations)`: raises unless the wiring is a
        dict of 26 entries. */
    static method Create(name: string, wiring: PyValue, notches: seq<PyValue>) returns (r: Result<Rotor>)
      ensures r.Ok? <==> wiring.PyDict? && |wiring.d| == NoOfRotorContacts
      ensures !wiring.PyDict? ==> r == Err(ValueError("Incompatible rotor wiring diagram"))
      ensures wiring.PyDict? && |wiring.d| != NoOfRotorContacts ==> r == Err(ValueError("Incomplete wiring diagram"))
      ensures r.Ok? ==> (fresh(r.value) && r.value.Valid() &&
        r.value.name == name && r.value.wiring == wiring.d && r.value.notches == notches &&
        r.value.position == 1 && r.value.ringSetting == 1)
    {
      if !wiring.PyDict? {
        return Err(ValueError("Incompatible rotor wiring diagram"));
      }
      if |wiring.d| != NoOfRotorContacts {
        return Err(ValueError("Incomplete wiring diagram"));
      }
      var rotor := new Rotor(name, wiring.d, notches);
      return Ok(rotor);
    }

    /** The `position` setter: accepts 1..26 only. */
    method SetPosition(value: int) returns (o: Outcome)
      modifies this
      ensures o == if 1 <= value <= NoOfRotorContacts then Pass else Fail(ValueError("Invalid rotor positions"))
      ensures position == if o.Pass? then value else old(position)
      ensures ringSetting == old(ringSetting)
    {
      if value < 1 || value > NoOfRotorContacts {
        return Fail(ValueError("Invalid rotor positions"));
      }
      position := value;
      return Pass;
    }

    /** The `ring_setting` setter: accepts 1..26 only. */
    method SetRingSetting(value: int) returns (o: Outcome)
      modifies this
      ensures o == if 1 <= value <= NoOfRotorContacts then Pass else Fail(ValueError("Invalid ring positions"))
      ensures ringSetting == if o.Pass? then value else old(ringSetting)
      ensures position == old(position)
    {
      if value < 1 || value > NoOfRotorContacts {
        return Fail(ValueError("Invalid ring positions"));
      }
      ringSetting := value;
      return Pass;
    }

    /** `step`. */
    method Step()
      modifies this
      ensures position == NextPosition(old(position))
      ensures ringSetting == old(ringSetting)
    {
      if position == NoOfRotorContacts {
        position := 1;
      } else {
        position := position + 1;
      }
    }

    /** `get_forward_circuit(contact)`. */
    function GetForwardCircuit(contact: Pin): (r: Result<Pin>)
      reads this
      ensures r.Err? ==> r.error == KeyError || r.error.EnumValueError?
      ensures r.Err? && r.error == KeyError <==> !HasKey(wiring, ShiftIn(contact, position))
    {
      var input := ShiftIn(contact, position);
      match Get(wiring, input)
      case None => Err(KeyError)
      case Some(out) =>
        var final := ShiftOut(out, position);
        if 1 <= final <= NoOfRotorContacts then Ok(final) else Err(EnumValueError(final))
    }

    /** `get_return_circuit(contact)`: the looked-up contact is itself
        turned into a RotorContact member before the offset is removed. */
    function GetReturnCircuit(contact: Pin): (r: Result<Pin>)
      reads this
      ensures r.Err? ==> r.error == KeyError || r.error.EnumValueError?
      ensures Valid() ==> (r.Err? && r.error == KeyError <==> !HasValue(wiring, ShiftIn(contact, position)))
    {
      var input := ShiftIn(contact, position);
      InvertHasKey(wiring, input);
      match Get(reverseWiring, input)
      case None => Err(KeyError)
      case Some(out) =>
        if !(1 <= out <= NoOfRotorContacts) then Err(EnumValueError(out))
        else
          var final := ShiftOut(out, position);
          if 1 <= final <= NoOfRotorContacts then Ok(final) else Err(EnumValueError(final))
    }

    /** `will_step_next`: whether the integer position is in the notch list. */
    function WillStepNext(): bool
      reads this
    {
      PyInt(position) in notches
    }
  }

  /** Backward undoes forward at any position. */
  lemma ReturnUndoesForward(r: Rotor, c: Pin)
    requires r.Valid() && IsRotorWiring(r.wiring)
    ensures r.GetForwardCircuit(c).Ok? && r.GetReturnCircuit(r.GetForwardCircuit(c).value) == Ok(c)
  {
    var input := ShiftIn(c, r.position);
    ShiftsInverse(c, r.position);
    var i := WiringItem(r.wiring, input);
    ShiftsInverse(r.wiring[i].1, r.position);
  }

  /** Forward undoes backward at any position. */
  lemma ForwardUndoesReturn(r: Rotor, c: Pin)
    requires r.Valid() && IsRotorWiring(r.wiring)
    ensures r.GetReturnCircuit(c).Ok? && r.GetForwardCircuit(r.GetReturnCircuit(c).value) == Ok(c)
  {
    var input := ShiftIn(c, r.position);
    ShiftsInverse(c, r.position);
    var i := WiringItemOfValue(r.wiring, input);
    ShiftsInverse(r.wiring[i].0, r.position);
  }

  /** On a rotor wiring the forward circuit is the wiring conjugated by the
      rotation through the position, modulo 26. */
  lemma ForwardIsRotation(r: Rotor, c: Pin)
    requires IsRotorWiring(r.wiring)
    ensures var input := (c + r.position - 2) % 26 + 1;
      Get(r.wiring, input).Some? &&
      r.GetForwardCircuit(c) == Ok((Get(r.wiring, input).value - r.position) % 26 + 1)
  {
    ShiftedLookupIsRotation(r.wiring, c, r.position);
  }

  /** `will_step_next` holds exactly when the position itself, as an int,
      is listed. */
  lemma WillStepNextIsIntMembership(r: Rotor, notchPins: seq<Pin>)
    requires r.notches == seq(|notchPins|, i requires 0 <= i < |notchPins| => PyInt(notchPins[i]))
    ensures r.WillStepNext() <==> r.position in notchPins
  {
    if r.WillStepNext() {
      var i :| 0 <= i < |r.notches| && r.notches[i] == PyInt(r.position);
    }
    if r.position in notchPins {
      var i :| 0 <= i < |notchPins| && notchPins[i] == r.position;
      assert r.notches[i] == PyInt(r.position);
    }
  }

  /** With the notch given by its letter name, as the rotor is built with,
      the integer test never fires: on notch Q (17) it answers False. */
  lemma WillStepNextMissesLetterNotch(r: Rotor)
    requires r.notches == [PyStr("Q")] && r.position == 17
    ensures !r.WillStepNext()
  {
  }

  /** The evidently intended test: the letter name of the position among
      the notch locations, as the other rotors do it. */
  function WillStepNextByName(r: Rotor): bool
    reads r
  {
    PyStr(PinName(r.position)) in r.notches
  }

  /** The name test fires exactly at the named notches: on the rotor of the
      test, at position Q. */
  lemma WillStepNextByNameAtNotch(r: Rotor, notchPins: seq<Pin>)
    requires r.notches == seq(|notchPins|, i requires 0 <= i < |notchPins| => PyStr(PinName(notchPins[i])))
    ensures WillStepNextByName(r) <==> r.position in notchPins
  {
    if WillStepNextByName(r) {
      var i :| 0 <= i < |r.notches| && r.notches[i] == PyStr(PinName(r.position));
      PinNameInjective(notchPins[i], r.position);
    }
    if r.position in notchPins {
      var i :| 0 <= i < |notchPins| && notchPins[i] == r.position;
      assert r.notches[i] == PyStr(PinName(r.position));
    }
  }
}
