/** Key presses of a three-rotor simulation machine with no plug, traced
    rotor by rotor. Each step of `encrypt` is stated on the contacts it
    passes through, so that a concrete press is checked one rotor at a
    time. */
module SimulationTraces {
  import opened Wrappers
  import opened Contacts
  import opened LetterTables
  import StringRotor
  import SimulationReflector
  import opened SimulationMachine
  import opened SimulationVectors

  /** c + p reduced once modulo 26, as `encrypt` shifts a contact. */
  function Shifted(c: Contact, p: Contact): int {
    if c + p < 26 then c + p else c + p - 26
  }

  /** x - p reduced once modulo 26, as `encrypt` shifts its output back. */
  function Unshifted(x: int, p: int): int {
    if x >= p then x - p else x - p + 26
  }

  /** One forward rotor step: the letter at the shifted contact, shifted back. */
  lemma ForwardAt(w: string, p: Contact, c: Contact, out: Contact)
    requires |w| == 26 && c + p != 50 && IsLetter(w[Shifted(c, p)])
    requires out == Unshifted(ContactOf(w[Shifted(c, p)]), p)
    ensures StringRotor.Encrypt(w, p, c, true) == Ok(out)
  {
    ForwardStep(w, p, c);
  }

  /** One backward rotor step on a wiring without repeated letters:
      `wiring.index` finds the shifted letter at i, and the output is i
      shifted back. */
  lemma BackwardAt(w: string, p: Contact, c: Contact, i: nat, out: Contact)
    requires |w| == 26 && Distinct(w) && i < 26 && c + p != 50
    requires w[i] == LetterOf(Shifted(c, p)) && out == Unshifted(i, p)
    ensures StringRotor.Encrypt(w, p, c, false) == Ok(out)
  {
    BackwardStep(w, p, c, i);
  }

  /** The forward pass of a three-rotor machine, rightmost rotor first. */
  lemma ForwardThree(w1: string, w2: string, w3: string, ps: seq<Contact>, c: Contact, x: Contact, y: Contact, z: Contact)
    requires |w1| == 26 && |w2| == 26 && |w3| == 26 && |ps| == 3
    requires StringRotor.Encrypt(w3, ps[2], c, true) == Ok(x)
    requires StringRotor.Encrypt(w2, ps[1], x, true) == Ok(y)
    requires StringRotor.Encrypt(w1, ps[0], y, true) == Ok(z)
    ensures WiringsSized([w1, w2, w3]) && ForwardPass([w1, w2, w3], ps, c) == Ok(z)
  {
    var ws := [w1, w2, w3];
    assert ws[..2] == [w1, w2] && ws[..2][..1] == [w1] && ws[..2][..1][..0] == [];
    assert ForwardPass([w1], ps[..2][..1], y) == Ok(z);
  }

  /** The backward pass of a three-rotor machine, leftmost rotor first. */
  lemma BackwardThree(w1: string, w2: string, w3: string, ps: seq<Contact>, c: Contact, x: Contact, y: Contact, z: Contact)
    requires |w1| == 26 && |w2| == 26 && |w3| == 26 && |ps| == 3
    requires StringRotor.Encrypt(w1, ps[0], c, false) == Ok(x)
    requires StringRotor.Encrypt(w2, ps[1], x, false) == Ok(y)
    requires StringRotor.Encrypt(w3, ps[2], y, false) == Ok(z)
    ensures WiringsSized([w1, w2, w3]) && BackwardPass([w1, w2, w3], ps, c) == Ok(z)
  {
    var ws := [w1, w2, w3];
    assert ws[..2] == [w1, w2] && ws[..2][..1] == [w1] && ws[..2][..1][..0] == [];
    assert BackwardPass([w1], ps[..2][..1], c) == Ok(x);
  }

  /** The contact a letter names, as plain arithmetic. */
  function Pin(ch: char): int {
    ch as int - 'A' as int
  }

  /** Rotors I, II and III one step at a time, forwards by the wiring
      letter and backwards by the inverse table. */
  lemma RotorIForwardAt(p: Contact, c: Contact, out: Contact)
    requires c + p != 50 && out == Unshifted(Pin(RotorI[Shifted(c, p)]), p)
    ensures StringRotor.Encrypt(RotorI, p, c, true) == Ok(out)
  {
    RotorILettersInverted();
    ForwardAt(RotorI, p, c, out);
  }

  lemma RotorIBackwardAt(p: Contact, c: Contact, out: Contact)
    requires c + p != 50 && out == Unshifted(RotorIInverse[Shifted(c, p)], p)
    ensures StringRotor.Encrypt(RotorI, p, c, false) == Ok(out)
  {
    WiringsDistinct();
    RotorIInverseLetters();
    BackwardAt(RotorI, p, c, RotorIInverse[Shifted(c, p)], out);
  }

  lemma RotorIIForwardAt(p: Contact, c: Contact, out: Contact)
    requires c + p != 50 && out == Unshifted(Pin(RotorII[Shifted(c, p)]), p)
    ensures StringRotor.Encrypt(RotorII, p, c, true) == Ok(out)
  {
    RotorIILettersInverted();
    ForwardAt(RotorII, p, c, out);
  }

  lemma RotorIIBackwardAt(p: Contact, c: Contact, out: Contact)
    requires c + p != 50 && out == Unshifted(RotorIIInverse[Shifted(c, p)], p)
    ensures StringRotor.Encrypt(RotorII, p, c, false) == Ok(out)
  {
    WiringsDistinct();
    RotorIIInverseLetters();
    BackwardAt(RotorII, p, c, RotorIIInverse[Shifted(c, p)], out);
  }

  lemma RotorIIIForwardAt(p: Contact, c: Contact, out: Contact)
    requires c + p != 50 && out == Unshifted(Pin(RotorIII[Shifted(c, p)]), p)
    ensures StringRotor.Encrypt(RotorIII, p, c, true) == Ok(out)
  {
    RotorIIILettersInverted();
    ForwardAt(RotorIII, p, c, out);
  }

  lemma RotorIIIBackwardAt(p: Contact, c: Contact, out: Contact)
    requires c + p != 50 && out == Unshifted(RotorIIIInverse[Shifted(c, p)], p)
    ensures StringRotor.Encrypt(RotorIII, p, c, false) == Ok(out)
  {
    WiringsDistinct();
    RotorIIIInverseLetters();
    BackwardAt(RotorIII, p, c, RotorIIIInverse[Shifted(c, p)], out);
  }

  /** The forward pass of the Enigma I, rotor by rotor: III, II, I. */
  lemma EnigmaIForward(ps: seq<Contact>, key: Contact, f1: Contact, f2: Contact, a: Contact)
    requires |ps| == 3 && ps[0] <= 24 && ps[1] <= 24 && ps[2] <= 24
    requires f1 == Unshifted(Pin(RotorIII[Shifted(key, ps[2])]), ps[2])
    requires f2 == Unshifted(Pin(RotorII[Shifted(f1, ps[1])]), ps[1])
    requires a == Unshifted(Pin(RotorI[Shifted(f2, ps[0])]), ps[0])
    ensures WiringsSized(Wirings) && ForwardPass(Wirings, ps, key) == Ok(a)
  {
    RotorIIIForwardAt(ps[2], key, f1);
    RotorIIForwardAt(ps[1], f1, f2);
    RotorIForwardAt(ps[0], f2, a);
    ForwardThree(RotorI, RotorII, RotorIII, ps, key, f1, f2, a);
  }

  /** The backward pass of the Enigma I, rotor by rotor: I, II, III. */
  lemma EnigmaIBackward(ps: seq<Contact>, b: Contact, b1: Contact, b2: Contact, out: Contact)
    requires |ps| == 3 && ps[0] <= 24 && ps[1] <= 24 && ps[2] <= 24
    requires b1 == Unshifted(RotorIInverse[Shifted(b, ps[0])], ps[0])
    requires b2 == Unshifted(RotorIIInverse[Shifted(b1, ps[1])], ps[1])
    requires out == Unshifted(RotorIIIInverse[Shifted(b2, ps[2])], ps[2])
    ensures WiringsSized(Wirings) && BackwardPass(Wirings, ps, b) == Ok(out)
  {
    RotorIBackwardAt(ps[0], b, b1);
    RotorIIBackwardAt(ps[1], b1, b2);
    RotorIIIBackwardAt(ps[2], b2, out);
    BackwardThree(RotorI, RotorII, RotorIII, ps, b, b1, b2, out);
  }

  /** One key press on the Enigma I at rotor positions other than Z, traced
      rotor by rotor: forwards through III, II and I (f1, f2, a), through
      UKW-B (b), and backwards through I, II and III (b1, b2, out). */
  lemma EnigmaITrace(ps: seq<Contact>, key: Contact, f1: Contact, f2: Contact, a: Contact, b: Contact,
                     b1: Contact, b2: Contact, out: Contact)
    requires |ps| == 3 && ps[0] <= 24 && ps[1] <= 24 && ps[2] <= 24
    requires f1 == Unshifted(Pin(RotorIII[Shifted(key, ps[2])]), ps[2])
    requires f2 == Unshifted(Pin(RotorII[Shifted(f1, ps[1])]), ps[1])
    requires a == Unshifted(Pin(RotorI[Shifted(f2, ps[0])]), ps[0])
    requires b == UkwBContacts[a]
    requires b1 == Unshifted(RotorIInverse[Shifted(b, ps[0])], ps[0])
    requires b2 == Unshifted(RotorIIInverse[Shifted(b1, ps[1])], ps[1])
    requires out == Unshifted(RotorIIIInverse[Shifted(b2, ps[2])], ps[2])
    ensures WiringsSized(Wirings)
    ensures SignalPath(Wirings, ps, Plain, Some(UkwB), key) == Ok(out)
  {
    EnigmaIForward(ps, key, f1, f2, a);
    UkwBContactsMatchWiring();
    assert SimulationReflector.Encrypt(UkwB, a) == Ok(b);
    EnigmaIBackward(ps, b, b1, b2, out);
  }
}
