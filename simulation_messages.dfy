/** The message tests of the simulation machine: the Enigma I with rotors
    I, II and III, UKW-B and no plug types AAAAA, once from rotor positions
    AAA and once from AAT, where the rightmost rotor turns the middle one
    over on its notch V. A key press is what `press_key` is proved to do:
    the rotors step as `AdvanceRotors` says, then the key runs the signal
    path at the new positions. */
module SimulationMessages {
  import opened Wrappers
  import opened PyValues
  import opened Contacts
  import StringRotor
  import opened SimulationMachine
  import opened SimulationVectors
  import opened SimulationTraces
  import opened LetterTables
  import SimulationReflector

  /** The notch lists of rotors I, II and III in the catalog. */
  const Notches: seq<seq<PyValue>> := [[PyStr("Q")], [PyStr("E")], [PyStr("V")]]

  lemma SizedWirings()
    ensures WiringsSized(Wirings)
  {
    assert |RotorI| == 26 && |RotorII| == 26 && |RotorIII| == 26;
  }

  /** Keys pressed in turn, as the message tests loop over `press_key`:
      each press steps the rotors and then runs the key through the
      machine at the new positions; the first failing press decides. */
  function TypeKeys(ps: seq<Contact>, doubleStep: bool, keys: seq<Contact>): (r: Result<seq<Contact>>)
    requires |ps| == 3
    ensures r.Ok? ==> |r.value| == |keys|
    decreases |keys|
  {
    if keys == [] then Ok([])
    else
      AdvanceRotorsSteps(ps, Notches, doubleStep);
      SizedWirings();
      var s := AdvanceRotors(ps, Notches, doubleStep);
      match SignalPath(Wirings, s.positions, Plain, Some(UkwB), keys[0])
      case Err(e) => Err(e)
      case Ok(c) =>
        match TypeKeys(s.positions, s.doubleStep, keys[1..])
        case Err(e) => Err(e)
        case Ok(cs) => Ok([c] + cs)
  }

  /** One press followed by the rest of the message. */
  lemma TypeStep(ps: seq<Contact>, doubleStep: bool, next: seq<Contact>, nextDouble: bool,
                 key: Contact, keys: seq<Contact>, out: Contact, rest: seq<Contact>)
    requires |ps| == 3 && |next| == 3
    requires AdvanceRotors(ps, Notches, doubleStep) == StepState(next, nextDouble)
    requires WiringsSized(Wirings)
    requires SignalPath(Wirings, next, Plain, Some(UkwB), key) == Ok(out)
    requires TypeKeys(next, nextDouble, keys) == Ok(rest)
    ensures TypeKeys(ps, doubleStep, [key] + keys) == Ok([out] + rest)
  {
    assert ([key] + keys)[1..] == keys;
  }

  /** A rotor with the single notch letter ch signals exactly at ch. */
  lemma WillStepNextAtOneNotch(p: Contact, ch: char)
    ensures StringRotor.WillStepNext(p, [PyStr([ch])]) <==> LetterOf(p) == ch
  {
    assert [LetterOf(p)][0] == LetterOf(p) && [ch][0] == ch;
  }

  /** A press that leaves the rightmost rotor off its notch V moves only
      that rotor, when no double step is pending. */
  lemma StepOffNotch(ps: seq<Contact>)
    requires |ps| == 3 && ps[2] <= 23 && ps[2] != 21
    ensures AdvanceRotors(ps, Notches, false) == StepState([ps[0], ps[1], ps[2] + 1], false)
  {
    WillStepNextAtOneNotch(ps[2], 'V');
    AdvanceRotorsSteps(ps, Notches, false);
    assert AdvanceRotors(ps, Notches, false).positions == [ps[0], ps[1], ps[2] + 1];
  }

  /** A press with the rightmost rotor on V carries the middle rotor one
      place; when that place is not E no double step is set. */
  lemma StepOnNotch(ps: seq<Contact>)
    requires |ps| == 3 && ps[2] == 21 && ps[1] <= 23 && ps[1] != 3
    ensures AdvanceRotors(ps, Notches, false) == StepState([ps[0], ps[1] + 1, 22], false)
  {
    WillStepNextAtOneNotch(21, 'V');
    WillStepNextAtOneNotch(ps[1] + 1, 'E');
    AdvanceRotorsSteps(ps, Notches, false);
    assert AdvanceRotors(ps, Notches, false).positions == [ps[0], ps[1] + 1, 22];
  }

  /** Rotor stepping from AAA: only the rightmost rotor moves, one place a
      press. */
  lemma StepsFromAAA()
    ensures AdvanceRotors([0, 0, 0], Notches, false) == StepState([0, 0, 1], false)
    ensures AdvanceRotors([0, 0, 1], Notches, false) == StepState([0, 0, 2], false)
    ensures AdvanceRotors([0, 0, 2], Notches, false) == StepState([0, 0, 3], false)
    ensures AdvanceRotors([0, 0, 3], Notches, false) == StepState([0, 0, 4], false)
    ensures AdvanceRotors([0, 0, 4], Notches, false) == StepState([0, 0, 5], false)
  {
    StepOffNotch([0, 0, 0]);
    StepOffNotch([0, 0, 1]);
    StepOffNotch([0, 0, 2]);
    StepOffNotch([0, 0, 3]);
    StepOffNotch([0, 0, 4]);
  }

  /** Rotor stepping from AAT: the rightmost rotor leaves its notch V on the
      third press and carries the middle rotor from A to B; the middle
      rotor is then off its notch E, so no double step follows. */
  lemma StepsFromAAT()
    ensures AdvanceRotors([0, 0, 19], Notches, false) == StepState([0, 0, 20], false)
    ensures AdvanceRotors([0, 0, 20], Notches, false) == StepState([0, 0, 21], false)
    ensures AdvanceRotors([0, 0, 21], Notches, false) == StepState([0, 1, 22], false)
    ensures AdvanceRotors([0, 1, 22], Notches, false) == StepState([0, 1, 23], false)
    ensures AdvanceRotors([0, 1, 23], Notches, false) == StepState([0, 1, 24], false)
  {
    StepOffNotch([0, 0, 19]);
    StepOffNotch([0, 0, 20]);
    StepOnNotch([0, 0, 21]);
    StepOffNotch([0, 1, 22]);
    StepOffNotch([0, 1, 23]);
  }

  /** Press 1 of AAAAA from AAA: key A at rotor positions AAB gives B. */
  lemma NoTurnoverPress1()
    ensures WiringsSized(Wirings)
    ensures SignalPath(Wirings, [0, 0, 1], Plain, Some(UkwB), 0) == Ok(1)
  {
    SimulationTraces.EnigmaITrace([0, 0, 1], 0, 2, 3, 5, 18, 18, 4, 1);
  }

  /** Press 2 of AAAAA from AAA: key A at rotor positions AAC gives D. */
  lemma NoTurnoverPress2()
    ensures WiringsSized(Wirings)
    ensures SignalPath(Wirings, [0, 0, 2], Plain, Some(UkwB), 0) == Ok(3)
  {
    SimulationTraces.EnigmaITrace([0, 0, 2], 0, 3, 10, 13, 10, 1, 9, 3);
  }

  /** Press 3 of AAAAA from AAA: key A at rotor positions AAD gives Z. */
  lemma NoTurnoverPress3()
    ensures WiringsSized(Wirings)
    ensures SignalPath(Wirings, [0, 0, 3], Plain, Some(UkwB), 0) == Ok(25)
  {
    SimulationTraces.EnigmaITrace([0, 0, 3], 0, 4, 18, 18, 5, 3, 2, 25);
  }

  /** Press 4 of AAAAA from AAA: key A at rotor positions AAE gives G. */
  lemma NoTurnoverPress4()
    ensures WiringsSized(Wirings)
    ensures SignalPath(Wirings, [0, 0, 4], Plain, Some(UkwB), 0) == Ok(6)
  {
    SimulationTraces.EnigmaITrace([0, 0, 4], 0, 5, 8, 21, 22, 13, 19, 6);
  }

  /** Press 5 of AAAAA from AAA: key A at rotor positions AAF gives O. */
  lemma NoTurnoverPress5()
    ensures WiringsSized(Wirings)
    ensures SignalPath(Wirings, [0, 0, 5], Plain, Some(UkwB), 0) == Ok(14)
  {
    SimulationTraces.EnigmaITrace([0, 0, 5], 0, 6, 17, 20, 2, 24, 21, 14);
  }

  /** Press 1 of AAAAA from AAT: key A at rotor positions AAU gives B. */
  lemma TurnoverPress1()
    ensures WiringsSized(Wirings)
    ensures SignalPath(Wirings, [0, 0, 20], Plain, Some(UkwB), 0) == Ok(1)
  {
    SimulationTraces.EnigmaITrace([0, 0, 20], 0, 16, 16, 23, 9, 25, 18, 1);
  }

  /** Press 2 of AAAAA from AAT: key A at rotor positions AAV gives M. */
  lemma TurnoverPress2()
    ensures WiringsSized(Wirings)
    ensures SignalPath(Wirings, [0, 0, 21], Plain, Some(UkwB), 0) == Ok(12)
  {
    SimulationTraces.EnigmaITrace([0, 0, 21], 0, 17, 6, 3, 7, 15, 20, 12);
  }

  /** Press 3 of AAAAA from AAT: key A at rotor positions ABW gives U. */
  lemma TurnoverPress3()
    ensures WiringsSized(Wirings)
    ensures SignalPath(Wirings, [0, 1, 22], Plain, Some(UkwB), 0) == Ok(20)
  {
    SimulationTraces.EnigmaITrace([0, 1, 22], 0, 24, 3, 5, 18, 18, 12, 20);
  }

  /** Press 4 of AAAAA from AAT: key A at rotor positions ABX gives Q. */
  lemma TurnoverPress4()
    ensures WiringsSized(Wirings)
    ensures SignalPath(Wirings, [0, 1, 23], Plain, Some(UkwB), 0) == Ok(16)
  {
    SimulationTraces.EnigmaITrace([0, 1, 23], 0, 21, 4, 11, 6, 5, 16, 16);
  }

  /** Press 5 of AAAAA from AAT: key A at rotor positions ABY gives O. */
  lemma TurnoverPress5()
    ensures WiringsSized(Wirings)
    ensures SignalPath(Wirings, [0, 1, 24], Plain, Some(UkwB), 0) == Ok(14)
  {
    SimulationTraces.EnigmaITrace([0, 1, 24], 0, 18, 12, 14, 12, 2, 1, 14);
  }

  /** Putting one element in front of a short sequence display; these keep
      the solver from comparing the displays element by element. */
  lemma Prepend0<T>(a: T)
    ensures [a] + [] == [a]
  {
  }

  lemma Prepend1<T>(a: T, b: T)
    ensures [a] + [b] == [a, b]
  {
  }

  lemma Prepend2<T>(a: T, b: T, c: T)
    ensures [a] + [b, c] == [a, b, c]
  {
  }

  lemma Prepend3<T>(a: T, b: T, c: T, d: T)
    ensures [a] + [b, c, d] == [a, b, c, d]
  {
  }

  lemma Prepend4<T>(a: T, b: T, c: T, d: T, e: T)
    ensures [a] + [b, c, d, e] == [a, b, c, d, e]
  {
  }

  /** AAAAA typed from rotor positions AAA, the start `configure` leaves,
      gives BDZGO. */
  lemma MessageNoTurnover()
    ensures TypeKeys([0, 0, 0], false, [0, 0, 0, 0, 0]) == Ok([1, 3, 25, 6, 14])
  {
    SizedWirings();
    assert TypeKeys([0, 0, 5], false, []) == Ok([]);
    StepOffNotch([0, 0, 4]);
    NoTurnoverPress5();
    TypeStep([0, 0, 4], false, [0, 0, 5], false, 0, [], 14, []);
    Prepend0(0);
    Prepend0(14);
    StepOffNotch([0, 0, 3]);
    NoTurnoverPress4();
    TypeStep([0, 0, 3], false, [0, 0, 4], false, 0, [0], 6, [14]);
    Prepend1(0, 0);
    Prepend1(6, 14);
    StepOffNotch([0, 0, 2]);
    NoTurnoverPress3();
    TypeStep([0, 0, 2], false, [0, 0, 3], false, 0, [0, 0], 25, [6, 14]);
    Prepend2(0, 0, 0);
    Prepend2(25, 6, 14);
    StepOffNotch([0, 0, 1]);
    NoTurnoverPress2();
    TypeStep([0, 0, 1], false, [0, 0, 2], false, 0, [0, 0, 0], 3, [25, 6, 14]);
    Prepend3(0, 0, 0, 0);
    Prepend3(3, 25, 6, 14);
    StepOffNotch([0, 0, 0]);
    NoTurnoverPress1();
    TypeStep([0, 0, 0], false, [0, 0, 1], false, 0, [0, 0, 0, 0], 1, [3, 25, 6, 14]);
    Prepend4(0, 0, 0, 0, 0);
    Prepend4(1, 3, 25, 6, 14);
  }

  /** AAAAA typed from rotor positions AAT gives BMUQO, with the middle
      rotor turned over on the third press. */
  lemma MessageRightRotorTurnover()
    ensures TypeKeys([0, 0, 19], false, [0, 0, 0, 0, 0]) == Ok([1, 12, 20, 16, 14])
  {
    SizedWirings();
    assert TypeKeys([0, 1, 24], false, []) == Ok([]);
    StepOffNotch([0, 1, 23]);
    TurnoverPress5();
    TypeStep([0, 1, 23], false, [0, 1, 24], false, 0, [], 14, []);
    Prepend0(0);
    Prepend0(14);
    StepOffNotch([0, 1, 22]);
    TurnoverPress4();
    TypeStep([0, 1, 22], false, [0, 1, 23], false, 0, [0], 16, [14]);
    Prepend1(0, 0);
    Prepend1(16, 14);
    StepOnNotch([0, 0, 21]);
    TurnoverPress3();
    TypeStep([0, 0, 21], false, [0, 1, 22], false, 0, [0, 0], 20, [16, 14]);
    Prepend2(0, 0, 0);
    Prepend2(20, 16, 14);
    StepOffNotch([0, 0, 20]);
    TurnoverPress2();
    TypeStep([0, 0, 20], false, [0, 0, 21], false, 0, [0, 0, 0], 12, [20, 16, 14]);
    Prepend3(0, 0, 0, 0);
    Prepend3(12, 20, 16, 14);
    StepOffNotch([0, 0, 19]);
    TurnoverPress1();
    TypeStep([0, 0, 19], false, [0, 0, 20], false, 0, [0, 0, 0, 0], 1, [12, 20, 16, 14]);
    Prepend4(0, 0, 0, 0, 0);
    Prepend4(1, 12, 20, 16, 14);
  }
}
