/** enigma_simulator/simulation/enigma_machine.py: the simulation machine.
    `configure` builds the rotors, plugboard and reflector a catalog entry
    names; `press_key` steps the rotors and sends the key through the
    plugboard, the rotors from right to left, the reflector, the rotors from
    left to right and the plugboard again. The catalog (ENIGMA_MODELS) is a
    parameter of `Configure`. */
module SimulationMachine {
  import opened Wrappers
  import opened PyValues
  import opened Contacts
  import StringRotor
  import SimulationPlugboard
  import SimulationReflector

  datatype RotorDefinition = RotorDefinition(name: string, wiring: string, notches: seq<PyValue>)
  datatype ReflectorDefinition = ReflectorDefinition(name: string, wiring: string)

  /** A catalog entry: rotor count, plugboard flag, rotors and reflectors. */
  datatype ModelDetails = ModelDetails(
    noOfRotors: nat,
    hasPlugboard: bool,
    rotors: seq<RotorDefinition>,
    reflectors: seq<ReflectorDefinition>)

  /** `[r for r in rotors if r.name == name][0]`, if there is one. */
  function FindRotor(defs: seq<RotorDefinition>, name: string): (r: Option<RotorDefinition>)
    ensures r.None? <==> forall i :: 0 <= i < |defs| ==> defs[i].name != name
    ensures r.Some? ==> r.value.name == name
  {
    if defs == [] then None
    else if defs[0].name == name then Some(defs[0])
    else FindRotor(defs[1..], name)
  }

  /** The rotor found is the first definition with that name. */
  lemma {:induction false} FindRotorIsFirst(defs: seq<RotorDefinition>, name: string, i: nat)
    requires i < |defs| && defs[i].name == name
    requires forall j :: 0 <= j < i ==> defs[j].name != name
    ensures FindRotor(defs, name) == Some(defs[i])
    decreases i
  {
    if i > 0 {
      FindRotorIsFirst(defs[1..], name, i - 1);
    }
  }

  /** `[r for r in reflectors if r.name == name][0]`, if there is one. */
  function FindReflector(defs: seq<ReflectorDefinition>, name: string): (r: Option<ReflectorDefinition>)
    ensures r.None? <==> forall i :: 0 <= i < |defs| ==> defs[i].name != name
    ensures r.Some? ==> r.value.name == name
  {
    if defs == [] then None
    else if defs[0].name == name then Some(defs[0])
    else FindReflector(defs[1..], name)
  }

  /** The reflector found is the first definition with that name. */
  lemma {:induction false} FindReflectorIsFirst(defs: seq<ReflectorDefinition>, name: string, i: nat)
    requires i < |defs| && defs[i].name == name
    requires forall j :: 0 <= j < i ==> defs[j].name != name
    ensures FindReflector(defs, name) == Some(defs[i])
    decreases i
  {
    if i > 0 {
      FindReflectorIsFirst(defs[1..], name, i - 1);
    }
  }

  /** Whether the rotor loop of `configure` gets past the name at index i:
      the name is in the catalog and its wiring has the length the rotor
      constructor demands. */
  predicate Buildable(defs: seq<RotorDefinition>, name: string) {
    FindRotor(defs, name).Some? && |FindRotor(defs, name).value.wiring| == StringRotor.WiringLength
  }

  /** The index at which the rotor loop of `configure`, started at `from`,
      stops, or |names| when it completes. */
  function StopIndex(defs: seq<RotorDefinition>, names: seq<string>, from: nat): (k: nat)
    requires from <= |names|
    ensures from <= k <= |names|
    ensures forall i :: from <= i < k ==> Buildable(defs, names[i])
    ensures k < |names| ==> !Buildable(defs, names[k])
    decreases |names| - from
  {
    if from == |names| then from
    else if !Buildable(defs, names[from]) then from
    else StopIndex(defs, names, from + 1)
  }

  function RotorCountMessage(n: nat): string {
    "Invalid number of rotors specified, " + "requires " + NatToString(n) + " rotors"
  }

  function InvalidRotorMessage(name: string): string {
    "Rotor '" + name + "' is invalid, aborting!"
  }

  function InvalidReflectorMessage(name: string): string {
    "Reflector '" + name + "' is invalid, aborting!"
  }

  /** Rotor positions and double-step flag after `_step_rotors`. */
  datatype StepState = StepState(positions: seq<Contact>, doubleStep: bool)

  /** `_step_rotors` on the positions and notch lists of the rotors, for the
      three-rotor machine it assumes. The rightmost rotor (index 2) always
      steps, after its notch is read; a pending double step moves rotors 0
      and 1 once and clears the flag; the middle rotor moves once more when
      the rightmost was on its notch, and the flag is then set exactly when
      the middle rotor has come to rest on its own notch. */
  function AdvanceRotors(ps: seq<Contact>, notches: seq<seq<PyValue>>, doubleStep: bool): StepState
    requires |ps| >= 3 && |notches| == |ps|
  {
    var turnover := StringRotor.WillStepNext(ps[2], notches[2]);
    var afterRight := ps[2 := StringRotor.StepPosition(ps[2])];
    var afterDouble := if doubleStep
      then afterRight[0 := StringRotor.StepPosition(ps[0])][1 := StringRotor.StepPosition(ps[1])]
      else afterRight;
    if !turnover then StepState(afterDouble, false)
    else
      var middle := StringRotor.StepPosition(afterDouble[1]);
      StepState(afterDouble[1 := middle], StringRotor.WillStepNext(middle, notches[1]))
  }

  /** What `_step_rotors` does to each rotor and to the double-step flag. */
  lemma AdvanceRotorsSteps(ps: seq<Contact>, notches: seq<seq<PyValue>>, doubleStep: bool)
    requires |ps| >= 3 && |notches| == |ps|
    ensures var r := AdvanceRotors(ps, notches, doubleStep);
      |r.positions| == |ps| &&
      r.positions[2] == StringRotor.StepPosition(ps[2]) &&
      r.positions[0] == (if doubleStep then StringRotor.StepPosition(ps[0]) else ps[0]) &&
      (var once := if doubleStep then StringRotor.StepPosition(ps[1]) else ps[1];
       r.positions[1] == if StringRotor.WillStepNext(ps[2], notches[2]) then StringRotor.StepPosition(once) else once) &&
      (r.doubleStep <==> StringRotor.WillStepNext(ps[2], notches[2]) && StringRotor.WillStepNext(r.positions[1], notches[1])) &&
      forall i :: 3 <= i < |ps| ==> r.positions[i] == ps[i]
  {
  }

  /** Every wiring has the length the rotor constructor demands. */
  predicate WiringsSized(ws: seq<string>) {
    forall i :: 0 <= i < |ws| ==> |ws[i]| == StringRotor.WiringLength
  }

  /** The loop over `reversed(rotors)` with `encrypt(c)`: the rightmost rotor first. */
  function ForwardPass(ws: seq<string>, ps: seq<Contact>, c: Contact): Result<Contact>
    requires WiringsSized(ws) && |ps| == |ws|
    decreases |ws|
  {
    if ws == [] then Ok(c)
    else
      var n := |ws| - 1;
      match StringRotor.Encrypt(ws[n], ps[n], c, true)
      case Err(e) => Err(e)
      case Ok(c') => ForwardPass(ws[..n], ps[..n], c')
  }

  /** The loop over `rotors` with `encrypt(c, forward=False)`: the leftmost rotor first. */
  function BackwardPass(ws: seq<string>, ps: seq<Contact>, c: Contact): Result<Contact>
    requires WiringsSized(ws) && |ps| == |ws|
    decreases |ws|
  {
    if ws == [] then Ok(c)
    else
      var n := |ws| - 1;
      match BackwardPass(ws[..n], ps[..n], c)
      case Err(e) => Err(e)
      case Ok(c') => StringRotor.Encrypt(ws[n], ps[n], c', false)
  }

  /** The signal path of `press_key` once the rotors have stepped. */
  function SignalPath(ws: seq<string>, ps: seq<Contact>, plugs: map<Contact, Contact>,
                      reflector: Option<SimulationReflector.Reflector>, key: Contact): Result<Contact>
    requires WiringsSized(ws) && |ps| == |ws| && (forall c: Contact :: c in plugs)
    requires reflector.Some? ==> |reflector.value.wiring| == 26
  {
    match ForwardPass(ws, ps, SimulationPlugboard.Plug(plugs, key))
    case Err(e) => Err(e)
    case Ok(a) =>
      if reflector.None? then Err(AttributeError)
      else match SimulationReflector.Encrypt(reflector.value, a)
        case Err(e) => Err(e)
        case Ok(b) =>
          match BackwardPass(ws, ps, b)
          case Err(e) => Err(e)
          case Ok(c) => Ok(SimulationPlugboard.Plug(plugs, c))
  }

  /** Permutation wirings at positions other than 25. */
  predicate InvertibleRotors(ws: seq<string>, ps: seq<Contact>) {
    |ps| == |ws| &&
    (forall i :: 0 <= i < |ws| ==> StringRotor.IsPermutation(ws[i])) &&
    (forall i :: 0 <= i < |ps| ==> ps[i] <= 24)
  }

  /** The backward pass undoes the forward pass, and the forward pass the
      backward one. */
  lemma {:induction false} PassesInverse(ws: seq<string>, ps: seq<Contact>, c: Contact)
    requires InvertibleRotors(ws, ps)
    ensures ForwardPass(ws, ps, c).Ok? && BackwardPass(ws, ps, ForwardPass(ws, ps, c).value) == Ok(c)
    ensures BackwardPass(ws, ps, c).Ok? && ForwardPass(ws, ps, BackwardPass(ws, ps, c).value) == Ok(c)
    decreases |ws|
  {
    if ws != [] {
      var n := |ws| - 1;
      assert InvertibleRotors(ws[..n], ps[..n]);
      StringRotor.BackwardUndoesForward(ws[n], ps[n], c);
      var c' := StringRotor.Encrypt(ws[n], ps[n], c, true).value;
      PassesInverse(ws[..n], ps[..n], c');
      PassesInverse(ws[..n], ps[..n], c);
      var b := BackwardPass(ws[..n], ps[..n], c).value;
      StringRotor.ForwardUndoesBackward(ws[n], ps[n], b);
    }
  }

  /** Reciprocity: with permutation rotors at positions other than 25, a
      reciprocal reflector and an involutive plugboard, the signal path of a
      key press is its own inverse, so the same routine decrypts what it
      encrypts. */
  lemma SignalPathIsInvolution(ws: seq<string>, ps: seq<Contact>, plugs: map<Contact, Contact>,
                               reflector: SimulationReflector.Reflector, key: Contact)
    requires InvertibleRotors(ws, ps)
    requires SimulationPlugboard.IsInvolution(plugs)
    requires SimulationReflector.IsReciprocal(reflector.wiring)
    ensures WiringsSized(ws)
    ensures SignalPath(ws, ps, plugs, Some(reflector), key).Ok?
    ensures SignalPath(ws, ps, plugs, Some(reflector), SignalPath(ws, ps, plugs, Some(reflector), key).value) == Ok(key)
  {
    var entry := SimulationPlugboard.Plug(plugs, key);
    PassesInverse(ws, ps, entry);
    var a := ForwardPass(ws, ps, entry).value;
    SimulationReflector.ReflectTwice(reflector, a);
    var b := SimulationReflector.Encrypt(reflector, a).value;
    PassesInverse(ws, ps, b);
    var c := BackwardPass(ws, ps, b).value;
    var out := SimulationPlugboard.Plug(plugs, c);
    SimulationPlugboard.PlugTwiceIsIdentity(plugs, c);
    assert ForwardPass(ws, ps, SimulationPlugboard.Plug(plugs, out)) == Ok(b);
    SimulationPlugboard.PlugTwiceIsIdentity(plugs, entry);
  }

  /** Under the same conditions no key is ever enciphered to itself. */
  lemma SignalPathHasNoFixedPoint(ws: seq<string>, ps: seq<Contact>, plugs: map<Contact, Contact>,
                                  reflector: SimulationReflector.Reflector, key: Contact)
    requires InvertibleRotors(ws, ps)
    requires SimulationPlugboard.IsInvolution(plugs)
    requires SimulationReflector.IsReciprocal(reflector.wiring)
    ensures WiringsSized(ws)
    ensures SignalPath(ws, ps, plugs, Some(reflector), key) != Ok(key)
  {
    var entry := SimulationPlugboard.Plug(plugs, key);
    PassesInverse(ws, ps, entry);
    var a := ForwardPass(ws, ps, entry).value;
    var b := SimulationReflector.Encrypt(reflector, a).value;
    assert b != a;
    PassesInverse(ws, ps, b);
    var c := BackwardPass(ws, ps, b).value;
    assert c != entry by {
      assert ForwardPass(ws, ps, c) == Ok(b);
      assert BackwardPass(ws, ps, a) == Ok(entry);
    }
    SimulationPlugboard.PlugTwiceIsIdentity(plugs, c);
  }

  /** The positions of a list of rotors. */
  function PositionsOf(rs: seq<StringRotor.Rotor>): (ps: seq<Contact>)
    reads rs
    ensures |ps| == |rs|
    ensures forall i :: 0 <= i < |rs| ==> ps[i] == rs[i].position
  {
    seq(|rs|, i requires 0 <= i < |rs| reads rs => rs[i].position)
  }

  /** The notch lists of a list of rotors. */
  function NotchesOf(rs: seq<StringRotor.Rotor>): (ns: seq<seq<PyValue>>)
    ensures |ns| == |rs|
    ensures forall i :: 0 <= i < |rs| ==> ns[i] == rs[i].notches
  {
    seq(|rs|, i requires 0 <= i < |rs| => rs[i].notches)
  }

  /** The body of `_step_rotors` on the machine's rotor list: it steps the
      rotors in place and returns the new double-step flag. */
  method StepRotorList(rs: seq<StringRotor.Rotor>, doubleStep: bool) returns (flag: bool)
    requires |rs| >= 3
    requires forall i, j :: 0 <= i < j < |rs| ==> rs[i] != rs[j]
    modifies rs`position
    ensures StepState(PositionsOf(rs), flag) == AdvanceRotors(old(PositionsOf(rs)), NotchesOf(rs), doubleStep)
  {
    ghost var r := AdvanceRotors(PositionsOf(rs), NotchesOf(rs), doubleStep);
    AdvanceRotorsSteps(PositionsOf(rs), NotchesOf(rs), doubleStep);
    flag := doubleStep;
    var rotor := rs[2];
    var willStepNextRotor := StringRotor.WillStepNext(rotor.position, rotor.notches);
    rotor.Step();
    if flag {
      rs[0].Step();
      rs[1].Step();
      flag := false;
    }
    if willStepNextRotor {
      rotor := rs[1];
      rotor.Step();
      if StringRotor.WillStepNext(rotor.position, rotor.notches) {
        flag := true;
      }
    }
    assert forall k :: 0 <= k < |rs| ==> rs[k].position == r.positions[k];
  }

  class Machine {
    var modelDetails: Option<ModelDetails>
    var doubleStep: bool
    var lastError: string
    var plugboard: SimulationPlugboard.Plugboard?
    var reflector: Option<SimulationReflector.Reflector>
    var rotors: seq<StringRotor.Rotor>
    var isConfigured: bool

    ghost predicate Valid() reads this`rotors, this`plugboard, this`reflector, plugboard {
      (forall i, j :: 0 <= i < j < |rotors| ==> rotors[i] != rotors[j]) &&
      (plugboard != null ==> plugboard.Valid()) &&
      (reflector.Some? ==> |reflector.value.wiring| == 26)
    }

    function Wirings(): (ws: seq<string>)
      reads this`rotors
      ensures |ws| == |rotors|
      ensures forall i :: 0 <= i < |rotors| ==> ws[i] == rotors[i].wiring
    {
      var rs := rotors; seq(|rs|, i requires 0 <= i < |rs| => rs[i].wiring)
    }

    function Notches(): (ns: seq<seq<PyValue>>)
      reads this`rotors
      ensures |ns| == |rotors|
      ensures forall i :: 0 <= i < |rotors| ==> ns[i] == rotors[i].notches
    {
      NotchesOf(rotors)
    }

    function Positions(): (ps: seq<Contact>)
      reads this`rotors, rotors
      ensures |ps| == |rotors|
      ensures forall i :: 0 <= i < |rotors| ==> ps[i] == rotors[i].position
    {
      PositionsOf(rotors)
    }

    constructor ()
      ensures Valid()
      ensures modelDetails.None? && !doubleStep && lastError == "" && plugboard == null
      ensures reflector.None? && rotors == [] && !isConfigured
    {
      modelDetails := None;
      doubleStep := false;
      lastError := "";
      plugboard := null;
      reflector := None;
      rotors := [];
      isConfigured := false;
    }

    /** `get_rotor_position(rotor_no)`, with Python's negative indexing. */
    function GetRotorPosition(rotorNo: int): (r: Result<Contact>)
      reads this, rotors
      ensures r.Ok? <==> -|rotors| <= rotorNo < |rotors|
      ensures r.Err? ==> r.error == IndexError
      ensures 0 <= rotorNo < |rotors| ==> r == Ok(Positions()[rotorNo])
      ensures -|rotors| <= rotorNo < 0 ==> r == Ok(Positions()[|rotors| + rotorNo])
    {
      if 0 <= rotorNo < |rotors| then Ok(rotors[rotorNo].position)
      else if -|rotors| <= rotorNo < 0 then Ok(rotors[|rotors| + rotorNo].position)
      else Err(IndexError)
    }

    /** `set_rotor_position(rotor_no, position)`: the position is checked
        before the rotor number, and only the one rotor changes. */
    method SetRotorPosition(rotorNo: int, position: int) returns (o: Outcome)
      requires Valid()
      modifies rotors`position
      ensures Valid()
      ensures o == if position < 0 || position > 25 then Fail(ValueError("Invalid rotor positions"))
                   else if rotorNo < 0 || rotorNo > |rotors| - 1 then Fail(ValueError("Invalid rotor"))
                   else Pass
      ensures Positions() == if o.Pass? then old(Positions())[rotorNo := position] else old(Positions())
      ensures forall i :: 0 <= i < |rotors| ==> rotors[i].ringSetting == old(rotors[i].ringSetting)
    {
      if position < 0 || position > 25 {
        return Fail(ValueError("Invalid rotor positions"));
      }
      if rotorNo < 0 || rotorNo > |rotors| - 1 {
        return Fail(ValueError("Invalid rotor"));
      }
      o := rotors[rotorNo].SetPosition(position);
      assert Positions() == old(Positions())[rotorNo := position];
    }

    /** `_step_rotors`. */
    method StepRotors()
      requires Valid() && |rotors| >= 3
      modifies this`doubleStep, rotors`position
      ensures Valid()
      ensures StepState(Positions(), doubleStep) == AdvanceRotors(old(Positions()), Notches(), old(doubleStep))
    {
      doubleStep := StepRotorList(rotors, doubleStep);
    }

    /** The loop of `press_key` over `reversed(rotors)`. */
    method RunForward(c: Contact) returns (r: Result<Contact>)
      requires Valid()
      ensures r == ForwardPass(Wirings(), Positions(), c)
    {
      var ws, ps := Wirings(), Positions();
      var current: Contact := c;
      assert WiringsSized(ws);
      var i := |rotors|;
      assert ws[..i] == ws && ps[..i] == ps;
      while i > 0
        invariant 0 <= i <= |rotors|
        invariant ForwardPass(ws, ps, c) == ForwardPass(ws[..i], ps[..i], current)
      {
        var step := StringRotor.Encrypt(ws[i - 1], ps[i - 1], current, true);
        assert ws[..i][..i - 1] == ws[..i - 1] && ps[..i][..i - 1] == ps[..i - 1];
        if step.Err? {
          return Err(step.error);
        }
        current := step.value;
        i := i - 1;
      }
      return Ok(current);
    }

    /** The loop of `press_key` over `rotors` with `forward=False`. */
    method RunBackward(c: Contact) returns (r: Result<Contact>)
      requires Valid()
      ensures r == BackwardPass(Wirings(), Positions(), c)
    {
      var ws, ps := Wirings(), Positions();
      var current: Contact := c;
      assert WiringsSized(ws);
      var i := 0;
      while i < |rotors|
        invariant 0 <= i <= |rotors|
        invariant BackwardPass(ws[..i], ps[..i], c) == Ok(current)
      {
        var step := StringRotor.Encrypt(ws[i], ps[i], current, false);
        assert ws[..i + 1][..i] == ws[..i] && ps[..i + 1][..i] == ps[..i];
        if step.Err? {
          assert ws[..|rotors|] == ws && ps[..|rotors|] == ps;
          BackwardPassStops(ws, ps, c, i + 1);
          return Err(step.error);
        }
        current := step.value;
        i := i + 1;
      }
      assert ws[..i] == ws && ps[..i] == ps;
      return Ok(current);
    }

    /** `press_key(key)`. With fewer than three rotors the rotor-state log
        raises IndexError before anything moves. */
    method PressKey(key: Contact) returns (r: Result<Contact>)
      requires Valid() && plugboard != null
      modifies this`doubleStep, rotors`position
      ensures Valid()
      ensures |rotors| < 3 ==> r == Err(IndexError) && Positions() == old(Positions()) && doubleStep == old(doubleStep)
      ensures |rotors| >= 3 ==>
        StepState(Positions(), doubleStep) == AdvanceRotors(old(Positions()), Notches(), old(doubleStep)) &&
        r == SignalPath(Wirings(), Positions(), plugboard.wiring, reflector, key)
    {
      if |rotors| < 3 {
        return Err(IndexError);
      }
      StepRotors();
      r := RunSignal(key);
    }

    /** The signal path of `press_key` after the rotors have stepped. */
    method RunSignal(key: Contact) returns (r: Result<Contact>)
      requires Valid() && plugboard != null
      ensures r == SignalPath(Wirings(), Positions(), plugboard.wiring, reflector, key)
    {
      var plugged := plugboard.GetPlug(PyEnum(key));
      var forward := RunForward(plugged.value);
      if forward.Err? {
        return Err(forward.error);
      }
      if reflector.None? {
        return Err(AttributeError);
      }
      var reflected := SimulationReflector.Encrypt(reflector.value, forward.value);
      if reflected.Err? {
        return Err(reflected.error);
      }
      var backward := RunBackward(reflected.value);
      if backward.Err? {
        return Err(backward.error);
      }
      var out := plugboard.GetPlug(PyEnum(backward.value));
      return Ok(out.value);
    }

    /** The rotor loop of `configure`: appends one rotor per name until a
        name is missing from the catalog (an error message and False) or a
        definition's wiring fails the rotor constructor (its ValueError). */
    method BuildRotors(defs: seq<RotorDefinition>, names: seq<string>)
      returns (built: seq<StringRotor.Rotor>, stop: Option<Result<bool>>)
      requires Valid()
      modifies this`rotors, this`lastError
      ensures Valid()
      ensures rotors == old(rotors) + built
      ensures BuiltInOrder(built, defs, names)
      ensures fresh(built)
      ensures |built| == |names| ==> stop.None? && lastError == old(lastError)
      ensures |built| < |names| && FindRotor(defs, names[|built|]).None? ==>
        stop == Some(Ok(false)) && lastError == InvalidRotorMessage(names[|built|])
      ensures |built| < |names| && FindRotor(defs, names[|built|]).Some? ==>
        stop == Some(Err(ValueError("Rotor wiring incorrect length"))) && lastError == old(lastError)
    {
      built, stop := NewRotors(defs, names);
      if stop == Some(Ok(false)) {
        lastError := InvalidRotorMessage(names[|built|]);
      }
      assert forall j, l :: 0 <= j < |rotors| && 0 <= l < |built| ==> rotors[j] != built[l] by {
        forall j, l | 0 <= j < |rotors| && 0 <= l < |built|
          ensures rotors[j] != built[l]
        {
          assert old(allocated(rotors[j]));
          assert fresh(built[l]);
        }
      }
      rotors := rotors + built;
    }

    /** The rotors the loop of `configure` constructs, in order, and why it
        stopped early, if it did. */
    static method NewRotors(defs: seq<RotorDefinition>, names: seq<string>)
      returns (built: seq<StringRotor.Rotor>, stop: Option<Result<bool>>)
      ensures BuiltInOrder(built, defs, names)
      ensures fresh(built)
      ensures forall j, l :: 0 <= j < l < |built| ==> built[j] != built[l]
      ensures |built| == |names| ==> stop.None?
      ensures |built| < |names| && FindRotor(defs, names[|built|]).None? ==> stop == Some(Ok(false))
      ensures |built| < |names| && FindRotor(defs, names[|built|]).Some? ==>
        stop == Some(Err(ValueError("Rotor wiring incorrect length")))
    {
      stop := None;
      built := [];
      var i := 0;
      while i < |names|
        invariant 0 <= i <= StopIndex(defs, names, 0)
        invariant |built| == i
        invariant forall j :: 0 <= j < i ==>
          fresh(built[j]) && BuiltFrom(built[j], FindRotor(defs, names[j]).value)
        invariant forall j, l :: 0 <= j < l < i ==> built[j] != built[l]
      {
        var found := FindRotor(defs, names[i]);
        if found.None? {
          return built, Some(Ok(false));
        }
        var entry := StringRotor.Rotor.Create(found.value.name, PyStr(found.value.wiring), found.value.notches);
        if entry.Err? {
          return built, Some(Err(entry.error));
        }
        built := built + [entry.value];
        i := i + 1;
      }
    }

    /** The part of `configure` after the rotors: a fresh plugboard when the
        model has one, then the reflector looked up by name. */
    method AttachReflector(details: ModelDetails, reflectorName: string) returns (r: Result<bool>)
      requires Valid()
      modifies this`plugboard, this`reflector, this`isConfigured, this`lastError
      ensures Valid()
      ensures if details.hasPlugboard
        then fresh(plugboard) && plugboard != null && forall c: Contact :: plugboard.wiring[c] == c
        else plugboard == old(plugboard)
      ensures var found := FindReflector(details.reflectors, reflectorName);
        if found.None? then
          r == Ok(false) && lastError == InvalidReflectorMessage(reflectorName) &&
          reflector == old(reflector) && isConfigured == old(isConfigured)
        else if |found.value.wiring| != 26 then
          r == Err(ValueError("Reflector wiring string incorrect")) &&
          lastError == old(lastError) && reflector == old(reflector) && isConfigured == old(isConfigured)
        else
          r == Ok(true) && isConfigured && lastError == old(lastError) &&
          reflector == Some(SimulationReflector.Reflector(found.value.name, found.value.wiring))
    {
      if details.hasPlugboard {
        plugboard := new SimulationPlugboard.Plugboard();
      }
      var found := FindReflector(details.reflectors, reflectorName);
      if found.None? {
        lastError := InvalidReflectorMessage(reflectorName);
        return Ok(false);
      }
      var built := SimulationReflector.Create(found.value.name, PyStr(found.value.wiring));
      if built.Err? {
        return Err(built.error);
      }
      reflector := Some(built.value);
      isConfigured := true;
      return Ok(true);
    }

    /** `configure(model, rotors, reflector)`. Rotors built before a failure
        stay appended, and nothing is reset first: a second call appends to
        the rotors of the first. */
    method Configure(catalog: map<string, ModelDetails>, model: string, names: seq<string>, reflectorName: string)
      returns (r: Result<bool>)
      requires Valid()
      modifies this`modelDetails, this`rotors, this`lastError, this`plugboard, this`reflector, this`isConfigured
      ensures Valid()
      ensures model !in catalog ==>
        r == Err(ValueError("Enigma model is not valid")) && unchanged(this)
      ensures model in catalog ==> modelDetails == Some(catalog[model])
      ensures model in catalog && |names| != catalog[model].noOfRotors ==>
        r == Ok(false) && lastError == RotorCountMessage(catalog[model].noOfRotors) &&
        rotors == old(rotors) && plugboard == old(plugboard) && reflector == old(reflector) &&
        isConfigured == old(isConfigured)
      ensures model in catalog && |names| == catalog[model].noOfRotors ==>
        |old(rotors)| <= |rotors| && rotors[..|old(rotors)|] == old(rotors) &&
        BuiltInOrder(rotors[|old(rotors)|..], catalog[model].rotors, names) &&
        fresh(rotors[|old(rotors)|..])
      ensures model in catalog && |names| == catalog[model].noOfRotors && |rotors| - |old(rotors)| < |names| ==>
        var k := |rotors| - |old(rotors)|;
        plugboard == old(plugboard) && reflector == old(reflector) && isConfigured == old(isConfigured) &&
        if FindRotor(catalog[model].rotors, names[k]).None?
        then r == Ok(false) && lastError == InvalidRotorMessage(names[k])
        else r == Err(ValueError("Rotor wiring incorrect length")) && lastError == old(lastError)
      ensures model in catalog && |names| == catalog[model].noOfRotors && |rotors| - |old(rotors)| == |names| ==>
        var details := catalog[model];
        var found := FindReflector(details.reflectors, reflectorName);
        (if details.hasPlugboard
         then fresh(plugboard) && plugboard != null && forall c: Contact :: plugboard.wiring[c] == c
         else plugboard == old(plugboard)) &&
        (if found.None? then
           r == Ok(false) && lastError == InvalidReflectorMessage(reflectorName) &&
           reflector == old(reflector) && isConfigured == old(isConfigured)
         else if |found.value.wiring| != 26 then
           r == Err(ValueError("Reflector wiring string incorrect")) &&
           lastError == old(lastError) && reflector == old(reflector) && isConfigured == old(isConfigured)
         else
           r == Ok(true) && isConfigured && lastError == old(lastError) &&
           reflector == Some(SimulationReflector.Reflector(found.value.name, found.value.wiring)))
    {
      if model !in catalog {
        return Err(ValueError("Enigma model is not valid"));
      }
      var details := catalog[model];
      modelDetails := Some(details);
      if |names| != details.noOfRotors {
        lastError := RotorCountMessage(details.noOfRotors);
        return Ok(false);
      }
      var built, stop := BuildRotors(details.rotors, names);
      assert rotors[..|old(rotors)|] == old(rotors) && rotors[|old(rotors)|..] == built;
      if stop.Some? {
        return stop.value;
      }
      r := AttachReflector(details, reflectorName);
    }
  }

  /** The rotors appended by `configure`, one per name up to the first
      name that cannot be built, each as built from its definition. */
  ghost predicate BuiltInOrder(added: seq<StringRotor.Rotor>, defs: seq<RotorDefinition>, names: seq<string>)
    reads added
  {
    |added| == StopIndex(defs, names, 0) &&
    forall j :: 0 <= j < |added| ==> BuiltFrom(added[j], FindRotor(defs, names[j]).value)
  }

  /** A rotor as `configure` builds it from its catalog definition. */
  ghost predicate BuiltFrom(r: StringRotor.Rotor, d: RotorDefinition) reads r {
    r.name == d.name && r.wiring == d.wiring && r.notches == d.notches &&
    r.position == 0 && r.ringSetting == 0
  }

  /** A failing rotor in the backward pass makes the whole pass fail with its error. */
  lemma {:induction false} BackwardPassStops(ws: seq<string>, ps: seq<Contact>, c: Contact, i: nat)
    requires WiringsSized(ws) && |ps| == |ws| && 1 <= i <= |ws|
    requires BackwardPass(ws[..i - 1], ps[..i - 1], c).Ok?
    requires StringRotor.Encrypt(ws[i - 1], ps[i - 1], BackwardPass(ws[..i - 1], ps[..i - 1], c).value, false).Err?
    ensures BackwardPass(ws, ps, c) ==
      StringRotor.Encrypt(ws[i - 1], ps[i - 1], BackwardPass(ws[..i - 1], ps[..i - 1], c).value, false)
    decreases |ws| - i
  {
    var n := |ws| - 1;
    assert ws[..i][..i - 1] == ws[..i - 1] && ps[..i][..i - 1] == ps[..i - 1];
    if i == |ws| {
      assert ws[..n] == ws[..i - 1] && ps[..n] == ps[..i - 1];
    } else {
      assert ws[..n][..i - 1] == ws[..i - 1] && ps[..n][..i - 1] == ps[..i - 1];
      BackwardPassStops(ws[..n], ps[..n], c, i);
    }
  }
}
