/** src/libEnigmaSimulator/EnigmaMachine.cpp: the machine's construction
    and `Configure`, which checks the rotor list against the machine type,
    places the rotors and allocates the plugboard. Built without
    `__IMPLEMENT_REFLECTOR__`, so the reflector name is not checked. */
module CppMachine {
  import opened Wrappers
  import opened CppMaps
  import CppPlugboard
  import CppReflector

  /** The entry of the machine-type catalog `Configure` reads. */
  datatype MachineType = MachineType(
    totalRotors: int,
    hasPlugboard: bool,
    rotorNames: seq<string>,
    reflectorNames: seq<string>)

  /** The index of the first name, in list order, that is not a valid name. */
  function FirstUnknown(names: seq<string>, valid: seq<string>): (r: Option<nat>)
    ensures r.None? <==> forall i :: 0 <= i < |names| ==> names[i] in valid
    ensures r.Some? ==> (r.value < |names| && names[r.value] !in valid &&
      forall j :: 0 <= j < r.value ==> names[j] in valid)
    decreases |names|
  {
    if names == [] then None
    else if names[0] !in valid then Some(0)
    else
      var r := FirstUnknown(names[1..], valid);
      assert forall i :: 1 <= i < |names| ==> names[1..][i - 1] == names[i];
      if r.None? then None else Some(r.value + 1)
  }

  /** `rotors_` after inserting names[i] at position i for each i in turn;
      a position already taken keeps its rotor. */
  function Placed(m: Map<string>, names: seq<string>): Map<string>
    decreases |names|
  {
    if names == [] then m
    else
      var n := |names| - 1;
      Insert(Placed(m, names[..n]), n, names[n])
  }

  /** On a fresh machine the rotors land at positions 0, 1, 2, ... in list
      order. */
  lemma {:induction false} PlacedOnEmpty(names: seq<string>)
    ensures Placed([], names) == seq(|names|, i requires 0 <= i < |names| => (i, names[i]))
    decreases |names|
  {
    if names != [] {
      var n := |names| - 1;
      PlacedOnEmpty(names[..n]);
      var m := seq(n, i requires 0 <= i < n => (i, names[..n][i]));
      InsertPastLastKey(m, n, names[n]);
      var l := seq(|names|, i requires 0 <= i < |names| => (i, names[i]));
      forall i | 0 <= i < |names| ensures l[i] == (m + [(n, names[n])])[i] {
        if i < n {
          assert names[..n][i] == names[i];
        }
      }
    }
  }

  /** On a machine whose positions 0 .. |names| - 1 are already taken,
      configuring again leaves the rotors as they were. */
  lemma {:induction false} PlacedKeepsTakenPositions(m: Map<string>, names: seq<string>)
    requires forall i :: 0 <= i < |names| ==> HasKey(m, i)
    ensures Placed(m, names) == m
    decreases |names|
  {
    if names != [] {
      var n := |names| - 1;
      PlacedKeepsTakenPositions(m, names[..n]);
      InsertExistingKey(m, n, names[n]);
    }
  }

  class EnigmaMachine {
    var isConfigured: bool
    var lastError: string
    var plugboard: CppPlugboard.Plugboard?
    var reflector: CppReflector.Reflector?
    /** `type_`: unset until `Configure` runs. */
    var machineType: Option<int>
    /** `rotors_`: position to the name of the rotor created for it. */
    var rotors: Map<string>

    /** A new machine is unconfigured, with no error, no plugboard and no
        reflector. */
    constructor ()
      ensures !isConfigured && lastError == "" && plugboard == null && reflector == null
      ensures machineType == None && rotors == []
    {
      isConfigured := false;
      lastError := "";
      plugboard := null;
      reflector := null;
      machineType := None;
      rotors := [];
    }

    /** `Configure(machineType, rotors, reflectorName)`; `models` is the
        machine-type catalog, which must hold the type (the lookup is not
        checked in C++). */
    method Configure(mType: int, names: seq<string>, reflectorName: string, models: map<int, MachineType>)
      returns (ok: bool)
      requires mType in models
      modifies this
      ensures machineType == Some(mType)
      ensures |names| != models[mType].totalRotors ==>
        !ok && lastError == "Invalid number of rotors specified" && rotors == old(rotors) &&
        isConfigured == old(isConfigured) && plugboard == old(plugboard) && reflector == old(reflector)
      ensures |names| == models[mType].totalRotors && FirstUnknown(names, models[mType].rotorNames).Some? ==>
        var i := FirstUnknown(names, models[mType].rotorNames).value;
        !ok && lastError == "Unknown rotor '" + names[i] + "'" && rotors == Placed(old(rotors), names[..i]) &&
        isConfigured == old(isConfigured) && plugboard == old(plugboard) && reflector == old(reflector)
      ensures |names| == models[mType].totalRotors && FirstUnknown(names, models[mType].rotorNames).None? ==>
        ok && isConfigured && lastError == old(lastError) && rotors == Placed(old(rotors), names) &&
        reflector == null &&
        if models[mType].hasPlugboard then plugboard != null && fresh(plugboard) && plugboard.entries == CppPlugboard.ResetMap()
        else plugboard == old(plugboard)
    {
      machineType := Some(mType);
      var model := models[mType];
      if |names| != model.totalRotors {
        lastError := "Invalid number of rotors specified";
        return false;
      }
      var position := 0;
      while position < |names|
        modifies this`rotors, this`lastError
        invariant 0 <= position <= |names|
        invariant rotors == Placed(old(rotors), names[..position])
        invariant forall j :: 0 <= j < position ==> names[j] in model.rotorNames
        invariant lastError == old(lastError)
      {
        if names[position] !in model.rotorNames {
          lastError := "Unknown rotor '" + names[position] + "'";
          return false;
        }
        assert names[..position + 1][..position] == names[..position];
        rotors := Insert(rotors, position, names[position]);
        position := position + 1;
      }
      assert names[..position] == names;
      if model.hasPlugboard {
        plugboard := new CppPlugboard.Plugboard();
      }
      reflector := null;
      isConfigured := true;
      return true;
    }
  }
}
