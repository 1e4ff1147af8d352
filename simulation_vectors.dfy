/** The Enigma I of the simulation catalog with rotors I, II and III (left
    to right), the standard UKW-B reflector and an empty plugboard. Its
    wirings are concrete, so the general reciprocity lemmas of the machine
    are shown to apply to it, and the single-rotor cases of the rotor unit
    tests come out as those tests expect. The catalog lists no reflector
    for the Enigma I; the UKW-B wiring is the one the C++ reflector factory
    gives. */
module SimulationVectors {
  import opened Wrappers
  import opened PyValues
  import opened Contacts
  import opened LetterTables
  import StringRotor
  import SimulationPlugboard
  import SimulationReflector
  import opened SimulationMachine

  const RotorI: string := "EKMFLGDQVZNTOWYHXUSPAIBRCJ"
  const RotorII: string := "AJDKSIRUXBLHWTMCQGZNPYFVOE"
  const RotorIII: string := "BDFHJLCPRTXVZNYEIWGAKMUSQO"
  const UkwBWiring: string := "YRUHQSLDPXNGOKMIEBFZCWVJAT"

  const Wirings: seq<string> := [RotorI, RotorII, RotorIII]
  const UkwB: SimulationReflector.Reflector := SimulationReflector.Reflector("UKW-B", UkwBWiring)

  /** A plugboard with no plug: every contact is wired to itself. */
  const Plain: map<Contact, Contact> := map c: Contact | 0 <= c < 26 :: c

  /** A wiring is a permutation of the letters once a table of 26 indices
      inverts it in both directions. */
  lemma PermutationByInverse(w: string, inv: seq<int>)
    requires |w| == StringRotor.WiringLength && |inv| == 26
    requires forall i :: 0 <= i < |w| ==> IsLetter(w[i]) && inv[ContactOf(w[i])] == i
    requires forall c :: 0 <= c < 26 ==> 0 <= inv[c] < |w| && w[inv[c]] == LetterOf(c)
    ensures StringRotor.IsPermutation(w)
  {
    forall c: Contact ensures LetterOf(c) in w {
      assert w[inv[c]] == LetterOf(c);
    }
  }

  /** The place of each letter on rotor I. */
  const RotorIInverse: seq<int> := [20, 22, 24, 6, 0, 3, 5, 15, 21, 25, 1, 4, 2, 10, 12, 19, 7, 23, 18, 11, 17, 8, 13, 16, 14, 9]

  lemma RotorILettersInverted()
    ensures forall i :: 0 <= i < 26 ==> IsLetter(RotorI[i]) && RotorIInverse[ContactOf(RotorI[i])] == i
  {
    forall i | 0 <= i < 26 ensures IsLetter(RotorI[i]) && RotorIInverse[ContactOf(RotorI[i])] == i { IndexCases(i); }
  }

  lemma RotorIInverseLetters()
    ensures forall c :: 0 <= c < 26 ==> 0 <= RotorIInverse[c] < 26 && RotorI[RotorIInverse[c]] == LetterOf(c)
  {
    forall c | 0 <= c < 26 ensures 0 <= RotorIInverse[c] < 26 && RotorI[RotorIInverse[c]] == LetterOf(c) { IndexCases(c); }
  }

  lemma RotorIIsPermutation()
    ensures StringRotor.IsPermutation(RotorI)
  {
    RotorILettersInverted();
    RotorIInverseLetters();
    PermutationByInverse(RotorI, RotorIInverse);
  }

  /** The place of each letter on rotor II. */
  const RotorIIInverse: seq<int> := [0, 9, 15, 2, 25, 22, 17, 11, 5, 1, 3, 10, 14, 19, 24, 20, 16, 6, 4, 13, 7, 23, 12, 8, 21, 18]

  lemma RotorIILettersInverted()
    ensures forall i :: 0 <= i < 26 ==> IsLetter(RotorII[i]) && RotorIIInverse[ContactOf(RotorII[i])] == i
  {
    forall i | 0 <= i < 26 ensures IsLetter(RotorII[i]) && RotorIIInverse[ContactOf(RotorII[i])] == i { IndexCases(i); }
  }

  lemma RotorIIInverseLetters()
    ensures forall c :: 0 <= c < 26 ==> 0 <= RotorIIInverse[c] < 26 && RotorII[RotorIIInverse[c]] == LetterOf(c)
  {
    forall c | 0 <= c < 26 ensures 0 <= RotorIIInverse[c] < 26 && RotorII[RotorIIInverse[c]] == LetterOf(c) { IndexCases(c); }
  }

  lemma RotorIIIsPermutation()
    ensures StringRotor.IsPermutation(RotorII)
  {
    RotorIILettersInverted();
    RotorIIInverseLetters();
    PermutationByInverse(RotorII, RotorIIInverse);
  }

  /** The place of each letter on rotor III. */
  const RotorIIIInverse: seq<int> := [19, 0, 6, 1, 15, 2, 18, 3, 16, 4, 20, 5, 21, 13, 25, 7, 24, 8, 23, 9, 22, 11, 17, 10, 14, 12]

  lemma RotorIIILettersInverted()
    ensures forall i :: 0 <= i < 26 ==> IsLetter(RotorIII[i]) && RotorIIIInverse[ContactOf(RotorIII[i])] == i
  {
    forall i | 0 <= i < 26 ensures IsLetter(RotorIII[i]) && RotorIIIInverse[ContactOf(RotorIII[i])] == i { IndexCases(i); }
  }

  lemma RotorIIIInverseLetters()
    ensures forall c :: 0 <= c < 26 ==> 0 <= RotorIIIInverse[c] < 26 && RotorIII[RotorIIIInverse[c]] == LetterOf(c)
  {
    forall c | 0 <= c < 26 ensures 0 <= RotorIIIInverse[c] < 26 && RotorIII[RotorIIIInverse[c]] == LetterOf(c) { IndexCases(c); }
  }

  lemma RotorIIIIsPermutation()
    ensures StringRotor.IsPermutation(RotorIII)
  {
    RotorIIILettersInverted();
    RotorIIIInverseLetters();
    PermutationByInverse(RotorIII, RotorIIIInverse);
  }

  /** No letter twice on rotors I, II and III. */
  lemma WiringsDistinct()
    ensures Distinct(RotorI) && Distinct(RotorII) && Distinct(RotorIII)
  {
    RotorIIsPermutation();
    RotorIIIsPermutation();
    RotorIIIIsPermutation();
  }

  /** Rotors I, II and III are permutations of the alphabet. */
  lemma WiringsArePermutations()
    ensures forall i :: 0 <= i < |Wirings| ==> StringRotor.IsPermutation(Wirings[i])
  {
    RotorIIsPermutation();
    RotorIIIsPermutation();
    RotorIIIIsPermutation();
  }

  /** A reflector wiring is reciprocal once a table of its contacts pairs
      every contact with another. */
  lemma ReciprocalByTable(w: string, t: seq<Contact>)
    requires |w| == 26 && |t| == 26
    requires forall c :: 0 <= c < 26 ==> IsLetter(w[c]) && ContactOf(w[c]) == t[c]
    requires forall c :: 0 <= c < 26 ==> t[t[c]] == c && t[c] != c
    ensures SimulationReflector.IsReciprocal(w)
  {
  }

  /** The contacts UKW-B sends A .. Z to. */
  const UkwBContacts: seq<Contact> :=
    [24, 17, 20, 7, 16, 18, 11, 3, 15, 23, 13, 6, 14, 10, 12, 8, 4, 1, 5, 25, 2, 22, 21, 9, 0, 19]

  lemma UkwBContactsMatchWiring()
    ensures forall c :: 0 <= c < 26 ==> IsLetter(UkwBWiring[c]) && ContactOf(UkwBWiring[c]) == UkwBContacts[c]
  {
    forall c | 0 <= c < 26 ensures IsLetter(UkwBWiring[c]) && ContactOf(UkwBWiring[c]) == UkwBContacts[c] {
      IndexCases(c);
    }
  }

  lemma UkwBContactsPaired()
    ensures forall c :: 0 <= c < 26 ==> UkwBContacts[UkwBContacts[c]] == c && UkwBContacts[c] != c
  {
    forall c | 0 <= c < 26 ensures UkwBContacts[UkwBContacts[c]] == c && UkwBContacts[c] != c {
      IndexCases(c);
    }
  }

  /** UKW-B pairs the letters: reflecting twice is the identity and no
      letter is reflected to itself. */
  lemma UkwBIsReciprocal()
    ensures SimulationReflector.IsReciprocal(UkwBWiring)
  {
    UkwBContactsMatchWiring();
    UkwBContactsPaired();
    ReciprocalByTable(UkwBWiring, UkwBContacts);
  }

  /** The empty plugboard is an involution. */
  lemma PlainIsInvolution()
    ensures forall c: Contact :: c in Plain && Plain[c] == c
    ensures SimulationPlugboard.IsInvolution(Plain)
  {
  }

  /** On this machine, at any rotor positions other than 25, every key
      press is undone by pressing the key it gave, and no key gives itself. */
  lemma EnigmaIIsReciprocal(ps: seq<Contact>, key: Contact)
    requires |ps| == 3 && forall i :: 0 <= i < 3 ==> ps[i] <= 24
    ensures WiringsSized(Wirings)
    ensures SignalPath(Wirings, ps, Plain, Some(UkwB), key).Ok?
    ensures SignalPath(Wirings, ps, Plain, Some(UkwB), SignalPath(Wirings, ps, Plain, Some(UkwB), key).value) == Ok(key)
    ensures SignalPath(Wirings, ps, Plain, Some(UkwB), key) != Ok(key)
  {
    WiringsArePermutations();
    UkwBIsReciprocal();
    PlainIsInvolution();
    assert InvertibleRotors(Wirings, ps);
    SignalPathIsInvolution(Wirings, ps, Plain, UkwB, key);
    SignalPathHasNoFixedPoint(Wirings, ps, Plain, UkwB, key);
  }

  /** One forward rotor step, for a shifted contact other than 50. */
  lemma ForwardStep(w: string, p: Contact, c: Contact)
    requires |w| == StringRotor.WiringLength && c + p != 50 && IsLetter(w[(c + p) % 26])
    ensures StringRotor.Encrypt(w, p, c, true) == Ok((ContactOf(w[(c + p) % 26]) - p) % 26)
  {
    StringRotor.DetermineNextPositionIsMod26(c + p);
  }

  /** One backward rotor step: `wiring.index` finds the shifted letter at
      its only place i. */
  lemma BackwardStep(w: string, p: Contact, c: Contact, i: nat)
    requires |w| == StringRotor.WiringLength && i < |w| && Distinct(w)
    requires c + p != 50 && w[i] == LetterOf((c + p) % 26)
    ensures StringRotor.Encrypt(w, p, c, false) == Ok((i - p) % 26)
  {
    StringRotor.DetermineNextPositionIsMod26(c + p);
    StringRotor.IndexOfDistinct(w, i);
  }

  /** Rotor I forwards at position A, as the rotor unit tests fix it: the
      keys A, L, T give E, T, P ... */
  lemma RotorIForwardAtA()
    ensures StringRotor.Encrypt(RotorI, 0, 0, true) == Ok(4)
    ensures StringRotor.Encrypt(RotorI, 0, 11, true) == Ok(19)
    ensures StringRotor.Encrypt(RotorI, 0, 19, true) == Ok(15)
  {
    ForwardStep(RotorI, 0, 0);
    ForwardStep(RotorI, 0, 11);
    ForwardStep(RotorI, 0, 19);
  }

  /** ... and the keys Y, Z give C, J. */
  lemma RotorIForwardAtAEnd()
    ensures StringRotor.Encrypt(RotorI, 0, 24, true) == Ok(2)
    ensures StringRotor.Encrypt(RotorI, 0, 25, true) == Ok(9)
  {
    ForwardStep(RotorI, 0, 24);
    ForwardStep(RotorI, 0, 25);
  }

  /** Rotor I forwards at position C: key A gives K, and key S gives Y
      through the wrap of the output contact. */
  lemma RotorIForwardAtC()
    ensures StringRotor.Encrypt(RotorI, 2, 0, true) == Ok(10)
    ensures StringRotor.Encrypt(RotorI, 2, 18, true) == Ok(24)
  {
    ForwardStep(RotorI, 2, 0);
    ForwardStep(RotorI, 2, 18);
  }

  /** Rotor III backwards, as the rotor unit tests fix it: at position C key
      I gives S, and at position E key Z, whose shifted contact wraps to D,
      gives X. */
  lemma RotorIIIBackwardVectors()
    ensures StringRotor.Encrypt(RotorIII, 2, 8, false) == Ok(18)
    ensures StringRotor.Encrypt(RotorIII, 4, 25, false) == Ok(23)
  {
    WiringsDistinct();
    BackwardStep(RotorIII, 2, 8, 20);
    BackwardStep(RotorIII, 4, 25, 1);
  }

  /** Stepping and the notch, as the rotor unit tests fix them: A steps to
      B, Z steps to B rather than A, and a rotor notched at Q signals a
      turnover at Q and not at A. */
  lemma StepVectors()
    ensures StringRotor.StepPosition(0) == 1
    ensures StringRotor.StepPosition(25) == 1
    ensures StringRotor.WillStepNext(16, [PyStr("Q")])
    ensures !StringRotor.WillStepNext(0, [PyStr("Q")])
  {
    assert LetterOf(16) == 'Q' && [LetterOf(16)] == "Q";
    assert [LetterOf(0)] != "Q" by {
      assert [LetterOf(0)][0] == 'A';
    }
  }
}
