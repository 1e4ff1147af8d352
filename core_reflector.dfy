/** src/Core/reflector.py: a reflector wired by a dictionary of 26 items;
    the machine of src/Core/enigma_machine.py sends the signal through
    `GetCircuit`. It holds no state beyond its constructor arguments. */
module CoreReflector {
  import opened Wrappers
  import opened PyValues
  import opened PyDicts
  import opened OneBased

  const NumberOfReflectorPins: int := 26

  datatype Reflector = Reflector(name: string, wiring: Dict)

  /** `Reflector(name, wiring)`; `Name` and `Wiring` give back the
      arguments. */
  function Create(name: string, wiring: PyValue): (r: Result<Reflector>)
    ensures r.Ok? <==> wiring.PyDict? && |wiring.d| == NumberOfReflectorPins
    ensures !wiring.PyDict? ==> r == Err(ValueError("Incompatible reflector wiring diagram"))
    ensures wiring.PyDict? && |wiring.d| != NumberOfReflectorPins ==> r == Err(ValueError("Incomplete reflector wiring diagram"))
    ensures r.Ok? ==> r.value.name == name && r.value.wiring == wiring.d
  {
    if !wiring.PyDict? then Err(ValueError("Incompatible reflector wiring diagram"))
    else if |wiring.d| != NumberOfReflectorPins then Err(ValueError("Incomplete reflector wiring diagram"))
    else Ok(Reflector(name, wiring.d))
  }

  /** `GetCircuit(pinNumber)`: `wiring[pinNumber]`, KeyError for a pin that
      is not a key. */
  function GetCircuit(r: Reflector, pinNumber: int): (out: Result<int>)
    ensures out.Err? <==> !HasKey(r.wiring, pinNumber)
    ensures out.Err? ==> out.error == KeyError
    ensures out.Ok? ==> exists i :: 0 <= i < |r.wiring| && r.wiring[i] == (pinNumber, out.value)
  {
    match Get(r.wiring, pinNumber)
    case None => Err(KeyError)
    case Some(v) => Ok(v)
  }

  /** A reflector wiring: every contact is a key, sent to another contact
      that is sent back. */
  predicate IsReciprocal(d: Dict) {
    forall p: Pin :: Get(d, p).Some? && 1 <= Get(d, p).value <= NoOfRotorContacts &&
      Get(d, p).value != p && Get(d, Get(d, p).value) == Some(p)
  }

  /** On a reciprocal wiring reflecting twice is the identity and no contact
      is reflected to itself. */
  lemma ReflectTwice(r: Reflector, p: Pin)
    requires IsReciprocal(r.wiring)
    ensures GetCircuit(r, p).Ok? && 1 <= GetCircuit(r, p).value <= NoOfRotorContacts
    ensures GetCircuit(r, p).value != p
    ensures GetCircuit(r, GetCircuit(r, p).value) == Ok(p)
  {
    var q := Get(r.wiring, p).value;
    assert Get(r.wiring, q) == Some(p);
  }
}
