/** src/Core/enigma_machine.py: the older 1-based machine. It is handed its
    rotors by name, an optional plugboard (the PascalCase plugboard of
    src/Core/Plugboard_.py) and a reflector (src/Core/reflector.py), and works
    the src/Core/Rotor.py rotors it is given. Every trace message is built
    whether or not tracing is on, and each converts the contact it shows
    with `ContactToCharacter`, so a contact outside 1..26 anywhere on the
    signal path raises ValueError there. The module imports `RotorContact`
    from src/Core/rotor_contact.py, which is not part of this model; its
    `Instance()` is taken to be the singleton of src/Core/RotorContact.py. */
module LegacyMachine {
  import opened Wrappers
  import opened PyValues
  import opened PyDicts
  import opened OneBased
  import LegacyRotor
  import LegacyPlugboard
  import CoreReflector
  import RotorContact

  function InvalidRotorNameMessage(name: string): string {
    "Invalid rotor name '" + name + "'!"
  }

  /** The `RotorContact.Instance().ContactToCharacter(c)` of a trace
      message on an int contact, by src/Core/RotorContact.py: the contact
      goes on unchanged, or the conversion raises. */
  function CheckContact(c: int): (r: Result<int>)
    ensures r == if 1 <= c <= NoOfRotorContacts then Ok(c) else Err(ValueError("invalid contact value"))
  {
    match RotorContact.ContactToCharacter(PyInt(c))
    case Err(e) => Err(e)
    case Ok(_) => Ok(c)
  }

  /** Rotor positions and double-step flag after `_StepRotors`. */
  datatype StepState = StepState(positions: seq<Pin>, doubleStep: bool)

  /** `_StepRotors` on the positions and notch lists of the rotors, for the
      three-rotor machine it assumes: the rightmost rotor (index 2) always
      steps, after its notch is read; a pending double step moves rotors 0
      and 1 once and clears the flag; the middle rotor moves once more when
      the rightmost was on its notch, and the flag is then set exactly when
      the middle rotor has come to rest on its own notch. */
  function AdvanceRotors(ps: seq<Pin>, notches: seq<seq<PyValue>>, doubleStep: bool): StepState
    requires |ps| >= 3 && |notches| == |ps|
  {
    var turnover := LegacyRotor.WillStepNext(ps[2], notches[2]);
    var afterRight := ps[2 := NextPosition(ps[2])];
    var afterDouble := if doubleStep
      then afterRight[0 := NextPosition(ps[0])][1 := NextPosition(ps[1])]
      else afterRight;
    if !turnover then StepState(afterDouble, false)
    else
      var middle := NextPosition(afterDouble[1]);
      StepState(afterDouble[1 := middle], LegacyRotor.WillStepNext(middle, notches[1]))
  }

  /** What `_StepRotors` does to each rotor and to the double-step flag. */
  lemma AdvanceRotorsSteps(ps: seq<Pin>, notches: seq<seq<PyValue>>, doubleStep: bool)
    requires |ps| >= 3 && |notches| == |ps|
    ensures var r := AdvanceRotors(ps, notches, doubleStep);
      |r.positions| == |ps| &&
      r.positions[2] == NextPosition(ps[2]) &&
      r.positions[0] == (if doubleStep then NextPosition(ps[0]) else ps[0]) &&
      (var once := if doubleStep then NextPosition(ps[1]) else ps[1];
       r.positions[1] == if LegacyRotor.WillStepNext(ps[2], notches[2]) then NextPosition(once) else once) &&
      (r.doubleStep <==> LegacyRotor.WillStepNext(ps[2], notches[2]) && LegacyRotor.WillStepNext(r.positions[1], notches[1])) &&
      forall i :: 3 <= i < |ps| ==> r.positions[i] == ps[i]
  {
  }

  /** The positions of a list of rotors. */
  function PositionsOf(rs: seq<LegacyRotor.Rotor>): (ps: seq<Pin>)
    reads rs
    ensures |ps| == |rs|
    ensures forall i :: 0 <= i < |rs| ==> ps[i] == rs[i].position
  {
    seq(|rs|, i requires 0 <= i < |rs| reads rs => rs[i].position)
  }

  /** The notch lists of a list of rotors. */
  function NotchesOf(rs: seq<LegacyRotor.Rotor>): (ns: seq<seq<PyValue>>)
    ensures |ns| == |rs|
    ensures forall i :: 0 <= i < |rs| ==> ns[i] == rs[i].notches
  {
    seq(|rs|, i requires 0 <= i < |rs| => rs[i].notches)
  }

  /** The body of `_StepRotors` on the machine's rotor list: it steps the
      rotors in place and returns the new double-step flag. */
  method StepRotorList(rs: seq<LegacyRotor.Rotor>, doubleStep: bool) returns (flag: bool)
    requires |rs| >= 3
    requires forall i, j :: 0 <= i < j < |rs| ==> rs[i] != rs[j]
    modifies rs`position
    ensures StepState(PositionsOf(rs), flag) == AdvanceRotors(old(PositionsOf(rs)), NotchesOf(rs), doubleStep)
  {
    ghost var r := AdvanceRotors(PositionsOf(rs), NotchesOf(rs), doubleStep);
    AdvanceRotorsSteps(PositionsOf(rs), NotchesOf(rs), doubleStep);
    flag := doubleStep;
    var rotor := rs[2];
    var willStepNextRotor := LegacyRotor.WillStepNext(rotor.position, rotor.notches);
    rotor.Step();
    if flag {
      rs[0].Step();
      rs[1].Step();
      flag := false;
    }
    if willStepNextRotor {
      rotor := rs[1];
      rotor.Step();
      if LegacyRotor.WillStepNext(rotor.position, rotor.notches) {
        flag := true;
      }
    }
    assert forall k :: 0 <= k < |rs| ==> rs[k].position == r.positions[k];
  }

  /** One rotor of the right-to-left loop: the contact shown on entry,
      `ForwardCircuit`, the contact shown on exit. */
  function RotorForward(w: Dict, p: Pin, c: int): Result<int> {
    match CheckContact(c)
    case Err(e) => Err(e)
    case Ok(_) =>
      match LegacyRotor.ForwardCircuit(w, p, c)
      case Err(e) => Err(e)
      case Ok(out) => CheckContact(out)
  }

  /** One rotor of the left-to-right loop, with `ReturnCircuit`. */
  function RotorReturn(w: Dict, p: Pin, c: int): Result<int> {
    match CheckContact(c)
    case Err(e) => Err(e)
    case Ok(_) =>
      match LegacyRotor.ReturnCircuit(w, p, c)
      case Err(e) => Err(e)
      case Ok(out) => CheckContact(out)
  }

  /** The loop over `reversed(self._rotors)`: the rightmost rotor first. */
  function ForwardPass(ws: seq<Dict>, ps: seq<Pin>, c: int): Result<int>
    requires |ps| == |ws|
    decreases |ws|
  {
    if ws == [] then Ok(c)
    else
      var n := |ws| - 1;
      match RotorForward(ws[n], ps[n], c)
      case Err(e) => Err(e)
      case Ok(c') => ForwardPass(ws[..n], ps[..n], c')
  }

  /** The loop over `self._rotors`: the leftmost rotor first. */
  function ReturnPass(ws: seq<Dict>, ps: seq<Pin>, c: int): Result<int>
    requires |ps| == |ws|
    decreases |ws|
  {
    if ws == [] then Ok(c)
    else
      var n := |ws| - 1;
      match ReturnPass(ws[..n], ps[..n], c)
      case Err(e) => Err(e)
      case Ok(c') => RotorReturn(ws[n], ps[n], c')
  }

  /** `GetPlug(c)` when there is a plugboard, the contact itself otherwise. */
  function Plug(plugboard: LegacyPlugboard.Plugboard?, c: int): Result<int>
    reads plugboard
  {
    if plugboard == null then Ok(c) else plugboard.GetPlug(c)
  }

  /** The reflector with the contact shown before and after it. */
  function Reflect(reflector: CoreReflector.Reflector, c: int): Result<int> {
    match CheckContact(c)
    case Err(e) => Err(e)
    case Ok(_) =>
      match CoreReflector.GetCircuit(reflector, c)
      case Err(e) => Err(e)
      case Ok(out) => CheckContact(out)
  }

  /** The signal path of `PressKey` once the rotors have stepped: plugboard,
      rotors right to left, reflector, rotors left to right, plugboard, and
      the output letter shown last. */
  function SignalPath(ws: seq<Dict>, ps: seq<Pin>, plugboard: LegacyPlugboard.Plugboard?,
                      reflector: CoreReflector.Reflector, key: int): Result<int>
    requires |ps| == |ws|
    reads plugboard
  {
    match Plug(plugboard, key)
    case Err(e) => Err(e)
    case Ok(a) =>
      match ForwardPass(ws, ps, a)
      case Err(e) => Err(e)
      case Ok(b) =>
        match Reflect(reflector, b)
        case Err(e) => Err(e)
        case Ok(c) =>
          match ReturnPass(ws, ps, c)
          case Err(e) => Err(e)
          case Ok(d) =>
            match Plug(plugboard, d)
            case Err(e) => Err(e)
            case Ok(out) => CheckContact(out)
  }

  predicate RotorWirings(ws: seq<Dict>) {
    forall i :: 0 <= i < |ws| ==> IsRotorWiring(ws[i])
  }

  /** On rotor wirings each rotor of the loops sends a contact to a contact,
      and the return step undoes the forward step. */
  lemma RotorStepsInverse(w: Dict, p: Pin, c: Pin)
    requires IsRotorWiring(w)
    ensures RotorForward(w, p, c).Ok? && 1 <= RotorForward(w, p, c).value <= NoOfRotorContacts
    ensures RotorReturn(w, p, RotorForward(w, p, c).value) == Ok(c)
    ensures RotorReturn(w, p, c).Ok? && 1 <= RotorReturn(w, p, c).value <= NoOfRotorContacts
    ensures RotorForward(w, p, RotorReturn(w, p, c).value) == Ok(c)
  {
    LegacyRotor.ForwardIsContact(w, p, c);
    LegacyRotor.ReturnUndoesForward(w, p, c);
    LegacyRotor.ReturnIsContact(w, p, c);
    LegacyRotor.ForwardUndoesReturn(w, p, c);
  }

  /** The return pass undoes the forward pass, and the forward pass the
      return pass; both keep contacts in 1..26. */
  lemma {:induction false} PassesInverse(ws: seq<Dict>, ps: seq<Pin>, c: Pin)
    requires RotorWirings(ws) && |ps| == |ws|
    ensures ForwardPass(ws, ps, c).Ok? && 1 <= ForwardPass(ws, ps, c).value <= NoOfRotorContacts
    ensures ReturnPass(ws, ps, ForwardPass(ws, ps, c).value) == Ok(c)
    ensures ReturnPass(ws, ps, c).Ok? && 1 <= ReturnPass(ws, ps, c).value <= NoOfRotorContacts
    ensures ForwardPass(ws, ps, ReturnPass(ws, ps, c).value) == Ok(c)
    decreases |ws|
  {
    if ws != [] {
      var n := |ws| - 1;
      assert RotorWirings(ws[..n]);
      RotorStepsInverse(ws[n], ps[n], c);
      var c' := RotorForward(ws[n], ps[n], c).value;
      PassesInverse(ws[..n], ps[..n], c');
      PassesInverse(ws[..n], ps[..n], c);
      var b := ReturnPass(ws[..n], ps[..n], c).value;
      RotorStepsInverse(ws[n], ps[n], b);
    }
  }

  /** Reciprocity: with rotor wirings, a reciprocal reflector and a valid
      plugboard or none, the signal path of a key press is its own inverse
      (the same routine decodes what it encodes), and no key is enciphered
      to itself. */
  lemma SignalPathIsInvolution(ws: seq<Dict>, ps: seq<Pin>, plugboard: LegacyPlugboard.Plugboard?,
                               reflector: CoreReflector.Reflector, key: Pin)
    requires RotorWirings(ws) && |ps| == |ws|
    requires plugboard != null ==> plugboard.Valid()
    requires CoreReflector.IsReciprocal(reflector.wiring)
    ensures SignalPath(ws, ps, plugboard, reflector, key).Ok?
    ensures SignalPath(ws, ps, plugboard, reflector, key).value != key
    ensures SignalPath(ws, ps, plugboard, reflector, SignalPath(ws, ps, plugboard, reflector, key).value) == Ok(key)
  {
    if plugboard != null {
      LegacyPlugboard.GetPlugIsContact(plugboard, key);
      LegacyPlugboard.GetPlugSymmetric(plugboard, key);
    }
    var a: Pin := Plug(plugboard, key).value;
    PassesInverse(ws, ps, a);
    var b: Pin := ForwardPass(ws, ps, a).value;
    CoreReflector.ReflectTwice(reflector, b);
    var c: Pin := Reflect(reflector, b).value;
    PassesInverse(ws, ps, c);
    var d: Pin := ReturnPass(ws, ps, c).value;
    assert d != a by {
      assert ForwardPass(ws, ps, d) == Ok(c);
    }
    if plugboard != null {
      LegacyPlugboard.GetPlugIsContact(plugboard, d);
      LegacyPlugboard.GetPlugSymmetric(plugboard, d);
    }
    var out: Pin := Plug(plugboard, d).value;
    assert Plug(plugboard, out) == Ok(d);
    assert ForwardPass(ws, ps, d) == Ok(c);
    assert Reflect(reflector, c) == Ok(b);
  }

  class EnigmaMachine {
    var rotors: seq<LegacyRotor.Rotor>
    var doubleStep: bool
    const plugboard: LegacyPlugboard.Plugboard?
    const reflector: CoreReflector.Reflector

    /** The plugboard, if any, keeps its own invariant. */
    ghost predicate Valid()
      reads this, plugboard
    {
      plugboard != null ==> plugboard.Valid()
    }

    /** No rotor object sits in two places. */
    predicate RotorsDistinct()
      reads this
    {
      forall i, j :: 0 <= i < j < |rotors| ==> rotors[i] != rotors[j]
    }

    function Wirings(): (ws: seq<Dict>)
      reads this`rotors
      ensures |ws| == |rotors|
      ensures forall i :: 0 <= i < |rotors| ==> ws[i] == rotors[i].wiring
    {
      var rs := rotors; seq(|rs|, i requires 0 <= i < |rs| => rs[i].wiring)
    }

    function Notches(): (ns: seq<seq<PyValue>>)
      reads this`rotors
      ensures |ns| == |rotors|
      ensures forall i :: 0 <= i < |rotors| ==> ns[i] == rotors[i].notches
    {
      NotchesOf(rotors)
    }

    function Positions(): (ps: seq<Pin>)
      reads this`rotors, rotors
      ensures |ps| == |rotors|
      ensures forall i :: 0 <= i < |rotors| ==> ps[i] == rotors[i].position
    {
      PositionsOf(rotors)
    }

    /** The constructor once every rotor name has been resolved. */
    constructor (plugboard: LegacyPlugboard.Plugboard?, reflector: CoreReflector.Reflector,
                 rotors: seq<LegacyRotor.Rotor>)
      ensures this.plugboard == plugboard && this.reflector == reflector
      ensures this.rotors == rotors && !doubleStep
    {
      this.plugboard := plugboard;
      this.reflector := reflector;
      this.rotors := rotors;
      doubleStep := false;
    }

    /** `EnigmaMachine(machineSetup, rotors, reflector)`: the setup's rotor
        names are looked up in order in the `rotors` dictionary, and the
        first one missing raises. */
    static method Create(setupRotors: seq<string>, plugboard: LegacyPlugboard.Plugboard?,
                         available: map<string, LegacyRotor.Rotor>, reflector: CoreReflector.Reflector)
      returns (r: Result<EnigmaMachine>)
      requires plugboard != null ==> plugboard.Valid()
      ensures r.Ok? <==> forall i :: 0 <= i < |setupRotors| ==> setupRotors[i] in available
      ensures r.Err? ==> (exists i :: 0 <= i < |setupRotors| && setupRotors[i] !in available &&
                            (forall j :: 0 <= j < i ==> setupRotors[j] in available) &&
                            r.error == ValueError(InvalidRotorNameMessage(setupRotors[i])))
      ensures r.Ok? ==> (fresh(r.value) && r.value.Valid() && !r.value.doubleStep &&
                         r.value.plugboard == plugboard && r.value.reflector == reflector &&
                         |r.value.rotors| == |setupRotors| &&
                         forall i :: 0 <= i < |setupRotors| ==> r.value.rotors[i] == available[setupRotors[i]])
    {
      var built: seq<LegacyRotor.Rotor> := [];
      var i := 0;
      while i < |setupRotors|
        invariant 0 <= i <= |setupRotors|
        invariant |built| == i
        invariant forall j :: 0 <= j < i ==> setupRotors[j] in available && built[j] == available[setupRotors[j]]
      {
        var name := setupRotors[i];
        if name !in available {
          return Err(ValueError(InvalidRotorNameMessage(name)));
        }
        built := built + [available[name]];
        i := i + 1;
      }
      var machine := new EnigmaMachine(plugboard, reflector, built);
      return Ok(machine);
    }

    /** `GetRotor(rotorNo)` as written: the bound check lets `len(rotors)`
        through to the list index, which raises IndexError. */
    function GetRotor(rotorNo: int): (r: Result<LegacyRotor.Rotor>)
      reads this
      ensures r.Ok? <==> 0 <= rotorNo < |rotors|
      ensures r.Ok? ==> r.value == rotors[rotorNo]
      ensures r.Err? ==> r.error == if rotorNo == |rotors| then IndexError else ValueError("Incorrect rotor number.")
    {
      if rotorNo < 0 || rotorNo > |rotors| then Err(ValueError("Incorrect rotor number."))
      else if rotorNo == |rotors| then Err(IndexError)
      else Ok(rotors[rotorNo])
    }

    /** `GetRotor` with the bound it evidently intends, `rotorNo >=
        len(rotors)`: every invalid number gets the documented ValueError. */
    function GetRotorChecked(rotorNo: int): (r: Result<LegacyRotor.Rotor>)
      reads this
      ensures r.Ok? <==> 0 <= rotorNo < |rotors|
      ensures r.Ok? ==> r.value == rotors[rotorNo]
      ensures r.Err? ==> r.error == ValueError("Incorrect rotor number.")
    {
      if rotorNo < 0 || rotorNo >= |rotors| then Err(ValueError("Incorrect rotor number."))
      else Ok(rotors[rotorNo])
    }

    /** `SetRotorPosition(rotorNo, position)`: the position is checked before
        the rotor number, and only the one rotor object changes. */
    method SetRotorPosition(rotorNo: int, position: int) returns (o: Outcome)
      modifies rotors`position
      ensures o == if position < 1 || position > NoOfRotorContacts then Fail(ValueError("Invalid rotor positions"))
                   else if rotorNo < 0 || rotorNo > |rotors| - 1 then Fail(ValueError("Invalid rotor"))
                   else Pass
      ensures o.Pass? ==> rotors[rotorNo].position == position
      ensures forall i :: 0 <= i < |rotors| && (o.Fail? || rotors[i] != rotors[rotorNo]) ==>
                rotors[i].position == old(rotors[i].position)
      ensures forall i :: 0 <= i < |rotors| ==> rotors[i].ringSetting == old(rotors[i].ringSetting)
    {
      if position < 1 || position > NoOfRotorContacts {
        return Fail(ValueError("Invalid rotor positions"));
      }
      if rotorNo < 0 || rotorNo > |rotors| - 1 {
        return Fail(ValueError("Invalid rotor"));
      }
      o := rotors[rotorNo].SetPosition(position);
    }

    /** `_StepRotors`. */
    method StepRotors()
      requires RotorsDistinct() && |rotors| >= 3
      modifies this`doubleStep, rotors`position
      ensures StepState(Positions(), doubleStep) == AdvanceRotors(old(Positions()), Notches(), old(doubleStep))
    {
      doubleStep := StepRotorList(rotors, doubleStep);
    }

    /** The loop of `PressKey` over `reversed(self._rotors)`. */
    method RunForward(c: int) returns (r: Result<int>)
      ensures r == ForwardPass(Wirings(), Positions(), c)
    {
      var ws, ps := Wirings(), Positions();
      var current := c;
      var i := |rotors|;
      assert ws[..i] == ws && ps[..i] == ps;
      while i > 0
        invariant 0 <= i <= |rotors|
        invariant ForwardPass(ws, ps, c) == ForwardPass(ws[..i], ps[..i], current)
      {
        var rotor := rotors[i - 1];
        assert ws[..i][..i - 1] == ws[..i - 1] && ps[..i][..i - 1] == ps[..i - 1];
        var entry := CheckContact(current);
        if entry.Err? {
          return Err(entry.error);
        }
        var contactNo := LegacyRotor.ForwardCircuit(rotor.wiring, rotor.position, current);
        if contactNo.Err? {
          return Err(contactNo.error);
        }
        var shown := CheckContact(contactNo.value);
        if shown.Err? {
          return Err(shown.error);
        }
        current := contactNo.value;
        i := i - 1;
      }
      return Ok(current);
    }

    /** The loop of `PressKey` over `self._rotors`. */
    method RunReturn(c: int) returns (r: Result<int>)
      ensures r == ReturnPass(Wirings(), Positions(), c)
    {
      var ws, ps := Wirings(), Positions();
      var current := c;
      var i := 0;
      while i < |rotors|
        invariant 0 <= i <= |rotors|
        invariant ReturnPass(ws[..i], ps[..i], c) == Ok(current)
      {
        var rotor := rotors[i];
        assert ws[..i + 1][..i] == ws[..i] && ps[..i + 1][..i] == ps[..i];
        var step := RotorReturnAt(rotor, current);
        if step.Err? {
          assert ws[..|rotors|] == ws && ps[..|rotors|] == ps;
          ReturnPassStops(ws, ps, c, i + 1);
          return Err(step.error);
        }
        current := step.value;
        i := i + 1;
      }
      assert ws[..i] == ws && ps[..i] == ps;
      return Ok(current);
    }

    /** The body of the left-to-right loop for one rotor. */
    static method RotorReturnAt(rotor: LegacyRotor.Rotor, c: int) returns (r: Result<int>)
      ensures r == RotorReturn(rotor.wiring, rotor.position, c)
    {
      var entry := CheckContact(c);
      if entry.Err? {
        return Err(entry.error);
      }
      var outPin := LegacyRotor.ReturnCircuit(rotor.wiring, rotor.position, c);
      if outPin.Err? {
        return Err(outPin.error);
      }
      r := CheckContact(outPin.value);
    }

    /** `PressKey(key)`: the key is shown first, then the rotor positions, so
        an invalid key or a machine of fewer than three rotors raises before
        anything moves. */
    method PressKey(key: int) returns (r: Result<int>)
      requires Valid() && RotorsDistinct()
      modifies this`doubleStep, rotors`position
      ensures !(1 <= key <= NoOfRotorContacts) ==>
        r == Err(ValueError("invalid contact value")) && Positions() == old(Positions()) && doubleStep == old(doubleStep)
      ensures 1 <= key <= NoOfRotorContacts && |rotors| < 3 ==>
        r == Err(IndexError) && Positions() == old(Positions()) && doubleStep == old(doubleStep)
      ensures 1 <= key <= NoOfRotorContacts && |rotors| >= 3 ==>
        StepState(Positions(), doubleStep) == AdvanceRotors(old(Positions()), Notches(), old(doubleStep)) &&
        r == SignalPath(Wirings(), Positions(), plugboard, reflector, key)
      ensures forall i :: 0 <= i < |rotors| ==> rotors[i].ringSetting == old(rotors[i].ringSetting)
    {
      var shown := CheckContact(key);
      if shown.Err? {
        return Err(shown.error);
      }
      if |rotors| < 3 {
        return Err(IndexError);
      }
      StepRotors();
      r := RunSignal(key);
    }

    /** The signal path of `PressKey` after the rotors have stepped. */
    method RunSignal(key: int) returns (r: Result<int>)
      ensures r == SignalPath(Wirings(), Positions(), plugboard, reflector, key)
    {
      var currentLetter := Plug(plugboard, key);
      if currentLetter.Err? {
        return Err(currentLetter.error);
      }
      var forward := RunForward(currentLetter.value);
      if forward.Err? {
        return Err(forward.error);
      }
      var reflected := Reflect(reflector, forward.value);
      if reflected.Err? {
        return Err(reflected.error);
      }
      var back := RunReturn(reflected.value);
      if back.Err? {
        return Err(back.error);
      }
      var out := Plug(plugboard, back.value);
      if out.Err? {
        return Err(out.error);
      }
      r := CheckContact(out.value);
    }
  }

  /** A return pass that fails at rotor i - 1 fails for the whole list. */
  lemma {:induction false} ReturnPassStops(ws: seq<Dict>, ps: seq<Pin>, c: int, i: nat)
    requires |ps| == |ws| && 1 <= i <= |ws|
    requires ReturnPass(ws[..i], ps[..i], c).Err?
    ensures ReturnPass(ws, ps, c) == ReturnPass(ws[..i], ps[..i], c)
    decreases |ws| - i
  {
    if i < |ws| {
      assert ws[..i + 1][..i] == ws[..i] && ps[..i + 1][..i] == ps[..i];
      ReturnPassStops(ws, ps, c, i + 1);
    } else {
      assert ws[..i] == ws && ps[..i] == ps;
    }
  }
}
