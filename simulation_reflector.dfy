/** The reflector the simulation machine builds. Its source file,
    enigma_simulator/simulation/reflector.py, is not part of this model; what
    is modelled is the behaviour its unit tests fix: the constructor takes a
    name and a 26-letter wiring string and `encrypt` sends contact c to the
    contact named by the c-th wiring letter. */
module SimulationReflector {
  import opened Wrappers
  import opened PyValues
  import opened Contacts

  datatype Reflector = Reflector(name: string, wiring: string)

  /** `Reflector(name, wiring)`. */
  function Create(name: string, wiring: PyValue): (r: Result<Reflector>)
    ensures r.Ok? <==> wiring.PyStr? && |wiring.s| == 26
    ensures !wiring.PyStr? ==> r == Err(ValueError("Reflector wiring should be a string"))
    ensures wiring.PyStr? && |wiring.s| != 26 ==> r == Err(ValueError("Reflector wiring string incorrect"))
    ensures r.Ok? ==> r.value.name == name && r.value.wiring == wiring.s
  {
    if !wiring.PyStr? then Err(ValueError("Reflector wiring should be a string"))
    else if |wiring.s| != 26 then Err(ValueError("Reflector wiring string incorrect"))
    else Ok(Reflector(name, wiring.s))
  }

  /** `encrypt(contact)`: the contact named by the wiring letter at `contact`. */
  function Encrypt(r: Reflector, contact: Contact): (out: Result<Contact>)
    requires |r.wiring| == 26
    ensures out.Ok? <==> IsLetter(r.wiring[contact])
    ensures out.Ok? ==> LetterOf(out.value) == r.wiring[contact]
  {
    if IsLetter(r.wiring[contact]) then Ok(ContactOf(r.wiring[contact])) else Err(KeyError)
  }

  /** A wiring of 26 letters in which every letter is sent back to itself by
      a second reflection and none is sent to itself. */
  predicate IsReciprocal(w: string) {
    |w| == 26 &&
    (forall c: Contact :: IsLetter(w[c])) &&
    (forall c: Contact :: ContactOf(w[ContactOf(w[c])]) == c) &&
    (forall c: Contact :: ContactOf(w[c]) != c)
  }

  /** On a reciprocal wiring reflecting twice is the identity. */
  lemma ReflectTwice(r: Reflector, c: Contact)
    requires IsReciprocal(r.wiring)
    ensures Encrypt(r, c).Ok? && Encrypt(r, Encrypt(r, c).value) == Ok(c)
  {
    assert ContactOf(r.wiring[ContactOf(r.wiring[c])]) == c;
  }
}
