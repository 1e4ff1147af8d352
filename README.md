# Enigma simulator core, modelled in Dafny

EnigmaSimulator reproduces the Enigma cipher machine. A key press first
steps the rotors: the rightmost always steps, the middle one steps when the
rightmost was on its notch, and a deferred "double step" moves the left and
middle rotors on the next key. The signal then runs through the plugboard,
through the rotors from right to left, through the reflector, back through
the rotors from left to right, and through the plugboard again. Because the
reflector pairs the letters and every rotor is a permutation, the same
routine both enciphers and deciphers. No letter ever comes out as itself.

The repository holds three generations of this engine, and the model keeps
them apart:

- **The simulation package** (`enigma_simulator/simulation`). It has a
  `Machine` configured from a model catalog and a 0-based rotor wired by a
  26-letter string. The machine builds that rotor from the Python class
  whose text is stored in `src/libEnigmaSimulator/Rotor.cpp`. It also has a
  plugboard kept as a symmetric table of all 26 contacts. Modules:
  `SimulationMachine`, `StringRotor`, `SimulationPlugboard`,
  `SimulationReflector` and `Contacts`. The package also has a 1-based rotor
  wired by a dictionary, modelled in `SimRotor`.
- **The `src/Core` Python machine.** A 1-based machine (`LegacyMachine`)
  works the dictionary rotors of `src/Core/Rotor.py` (`LegacyRotor`). It
  uses the plugboard of `src/Core/Plugboard_.py` (`LegacyPlugboard`) and the
  reflector of `src/Core/reflector.py` (`CoreReflector`). Beside it sit the
  later snake_case rotor and plugboard (`CoreRotor`, `CorePlugboard`) and the
  letter/contact conversion of `src/Core/RotorContact.py` (`RotorContact`).
- **The C++ library** (`src/libEnigmaSimulator`). This is the machine's
  construction and `Configure` (`CppMachine`), the plugboard (`CppPlugboard`)
  and the reflector (`CppReflector`). It also covers three wiring tables:
  `RotorWireConfig`, `WireConfiguredDevice` and `RotorWiringLayout`. The
  string utilities are in `StringUtils`.

Shared modules:

- `Wrappers`: exceptions become `Result`/`Outcome` values.
- `PyValues`: the Python values the code inspects with `isinstance`.
- `PyDicts`: Python dictionaries as ordered item lists. This makes
  `{v: k for k, v in d.items()}` exact. The reverse lookup
  `d.keys()[d.values().index(v)]` is exact where the code relies on Python 2
  lists, in src/Core/Rotor.py:175 and src/Core/Plugboard_.py:82-83. Under
  Python 3 a values view has no `index`, so src/Core/plugboard.py:80-81
  raises AttributeError there (`CorePlugboard.Plugboard.GetPlug`).
- `CppMaps`: `std::map` as a key-sorted list with `find`, `insert` (which
  never overwrites) and `operator[]`/assignment.
- `OneBased`: the hand-written wrap arithmetic of the 1-based rotors.
- `PlugDicts`: the one-direction plug dictionary of the two older
  plugboards.
- `CppContacts`: the C++ contact numbering A = 1 .. Z = 26, with `end` = 27.
- `LetterTables`: distinctness on concrete 26-letter tables.

State that the source changes in place is modelled imperatively:

- Rotors, plugboards and machines are classes whose methods update their
  fields under `modifies` clauses.
- The string utilities work on an `array<char>`.

Lookups, circuits and validation are functions. Each operation's partner is
proved beside it:

- every rotor's return circuit undoes its forward circuit;
- every plugboard stays symmetric, and a rejected plug changes nothing;
- reflecting twice is the identity;
- a built wiring table is exactly the layout it was built from;
- a rotation is undone by the opposite rotation;
- both machines' signal paths are involutions without fixed points.

`SimulationVectors` instantiates the simulation machine as an Enigma I with
rotors I, II, III, reflector UKW-B and no plugs. For that machine it proves
the reciprocity and no-fixed-point theorems, and it checks the single-rotor
vectors of the rotor unit tests. `SimulationTraces` follows one key press
through that machine rotor by rotor. `SimulationMessages` uses it to check
the two message tests of the machine: AAAAA becomes BDZGO from rotor
positions AAA and BMUQO from AAT.

Where the code and its documentation or tests disagree, the model follows
the code:

- The `Rotor.cpp` rotor steps modulo 25. Its tests assert `25 -> 1`.
- Its ring setter accepts only 1..25.
- At contact Z and position Z, `_determine_next_position(50)` returns -1,
  so `encrypt` raises in both directions (`StringRotor.EncryptFailsOnlyAtZZ`).
- The simulation catalog (`enigma_simulator/simulation/enigma_models.py`)
  lists no reflector for any model. As shipped, `configure` with
  `'UKW-B'` therefore returns False. So the vectors take the UKW-B wiring
  from `src/libEnigmaSimulator/ReflectorFactory.cpp:24`. The catalog itself
  is a parameter of `Configure`.
- `src/libEnigmaSimulator/RotorContact.h` declares a 0-based enum
  `kRotorContactA = 0 .. kRotorContactZ = 25`. That enum has no `end` value
  and no `RotorContactStr` table. The plugboard and wiring classes, however,
  use `kRotorContact_A`, `kRotorContact_end` and `RotorContactStr`, and
  number a layout character `(ch - 65) + 1`. The model follows those
  classes: A = 1 .. Z = 26, `end` = 27, and `RotorContactStr[k]` is the k-th
  letter.
- `MAX_WIRING_ENTRIES` is taken as 26 for the wiring classes: their layout
  strings and their tests have 26 letters. `RotorWiringLayout.h` defines its
  own value, 25, and that value is used there.

## Model

| member | source | states |
|---|---|---|
| SimulationMachine.Machine.constructor | enigma_simulator/simulation/enigma_machine.py:51-59 | a new machine has no model, no rotors, plugboard or reflector, no error, no pending double step and is not configured |
| SimulationMachine.FindRotor | enigma_simulator/simulation/enigma_machine.py:78-84 | None exactly when no catalog rotor has the name; otherwise a definition with that name |
| SimulationMachine.FindRotorIsFirst | enigma_simulator/simulation/enigma_machine.py:78-84 | the definition found is the first one in catalog order with that name |
| SimulationMachine.FindReflector | enigma_simulator/simulation/enigma_machine.py:95-99 | None exactly when no catalog reflector has the name; otherwise one with that name |
| SimulationMachine.FindReflectorIsFirst | enigma_simulator/simulation/enigma_machine.py:95-99 | the reflector found is the first one in catalog order with that name |
| SimulationMachine.StopIndex | enigma_simulator/simulation/enigma_machine.py:77-89 | the rotor loop gets past every name before the index it stops at, and fails at that index if it is inside the list |
| SimulationMachine.Machine.NewRotors | enigma_simulator/simulation/enigma_machine.py:77-89 | the rotors built are fresh, distinct and built in list order from their catalog definitions; the loop stops at the first unknown name with "invalid" or at the first rotor whose constructor raises |
| SimulationMachine.Machine.BuildRotors | enigma_simulator/simulation/enigma_machine.py:77-89 | the built rotors are appended after the existing ones and are distinct from them; an unknown name sets "Rotor 'X' is invalid, aborting!" |
| SimulationMachine.Machine.AttachReflector | enigma_simulator/simulation/enigma_machine.py:91-107 | a fresh identity plugboard exactly when the model has one; an unknown reflector name returns False with "Reflector 'X' is invalid, aborting!"; otherwise the reflector is built and the machine is configured |
| SimulationMachine.Machine.Configure | enigma_simulator/simulation/enigma_machine.py:61-107 | an unknown model raises "Enigma model is not valid"; a wrong rotor count returns False with "Invalid number of rotors specified, requires N rotors" and leaves the rotors, plugboard, reflector and configured flag as they were; rotors appended before a failure stay; the machine is configured only after every check passes |
| SimulationMachine.AdvanceRotorsSteps | enigma_simulator/simulation/enigma_machine.py:199-244 | the rightmost rotor always steps; a pending double step steps rotors 0 and 1 once; the middle rotor steps again only if the rightmost was on its notch before stepping; the new flag is set exactly when that happened and the middle rotor then sits on its notch; other rotors are untouched |
| SimulationMachine.Machine.StepRotors | enigma_simulator/simulation/enigma_machine.py:199-244 | the new positions and flag are `AdvanceRotors` of the old ones; only positions and the flag may change, so ring settings are untouched |
| SimulationMachine.Machine.RunForward | enigma_simulator/simulation/enigma_machine.py:138-151 | the loop over `reversed(rotors)` computes the forward pass, rightmost rotor first |
| SimulationMachine.Machine.RunBackward | enigma_simulator/simulation/enigma_machine.py:163-170 | the loop over `rotors` with `forward=False` computes the backward pass, leftmost rotor first |
| SimulationMachine.Machine.RunSignal | enigma_simulator/simulation/enigma_machine.py:130-180 | plugboard, forward pass, reflector, backward pass and plugboard give the signal path of the stepped positions |
| SimulationMachine.Machine.PressKey | enigma_simulator/simulation/enigma_machine.py:109-180 | the rotors step first; the output is then the signal path at the new positions; with fewer than three rotors the key raises IndexError and nothing moves |
| SimulationMachine.Machine.SetRotorPosition | enigma_simulator/simulation/enigma_machine.py:182-193 | the position check (0..25, "Invalid rotor positions") comes before the index check ("Invalid rotor"); on success only that rotor's position changes |
| SimulationMachine.Machine.GetRotorPosition | enigma_simulator/simulation/enigma_machine.py:195-196 | the position of the indexed rotor, with Python's negative indexing; IndexError outside -len..len-1 |
| SimulationMachine.PassesInverse | enigma_simulator/simulation/enigma_machine.py:138-170 | with permutation rotors at positions other than 25, the backward pass undoes the forward pass and the forward pass undoes the backward pass |
| SimulationMachine.SignalPathIsInvolution | enigma_simulator/simulation/enigma_machine.py:109-180 | with such rotors, an involutive plugboard and a reciprocal reflector, pressing the output key gives back the input: encryption and decryption are one routine |
| SimulationMachine.SignalPathHasNoFixedPoint | enigma_simulator/simulation/enigma_machine.py:109-180 | under the same conditions no key is enciphered to itself |
| SimulationMachine.BackwardPassStops | enigma_simulator/simulation/enigma_machine.py:163-170 | a rotor that raises in the backward loop makes the whole pass raise with its error |
| StringRotor.Rotor.constructor | src/libEnigmaSimulator/Rotor.cpp:71-101 | the accepted rotor keeps its name, wiring and notches, at position 0 and ring 0 |
| StringRotor.Rotor.Create | src/libEnigmaSimulator/Rotor.cpp:71-101 | non-string wiring raises "Rotor wiring is not a string", a length other than 26 raises "Rotor wiring incorrect length", anything else builds the rotor |
| StringRotor.Rotor.SetPosition | src/libEnigmaSimulator/Rotor.cpp:46-55 | accepts exactly 0..25, else "Invalid rotor positions" with nothing changed |
| StringRotor.Rotor.SetRingSetting | src/libEnigmaSimulator/Rotor.cpp:62-69 | accepts exactly 1..25, else "Invalid ring positions" with nothing changed |
| StringRotor.StepPosition | src/libEnigmaSimulator/Rotor.cpp:103-105 | the step is modulo 25: 0..23 advance by one, 24 wraps to 0, 25 goes to 1 |
| StringRotor.Rotor.Step | src/libEnigmaSimulator/Rotor.cpp:103-105 | the new position is the step of the old one; the ring setting is unchanged |
| StringRotor.DetermineNextPositionIsMod26 | src/libEnigmaSimulator/Rotor.cpp:196-211 | the hand-written wrap is reduction modulo 26 on -26..49 and yields -1 at 50 |
| StringRotor.IndexOf | src/libEnigmaSimulator/Rotor.cpp:156-159 | `str.index`: the first index holding the character, or None when no index holds it |
| StringRotor.IndexOfDistinct | src/libEnigmaSimulator/Rotor.cpp:156-159 | in a string with no repeated letter, `index` finds each letter at its own index |
| StringRotor.Encrypt | src/libEnigmaSimulator/Rotor.cpp:107-185 | a forward success is the wiring letter at the contact shifted by the position, shifted back by the position |
| StringRotor.EncryptFailsOnlyAtZZ | src/libEnigmaSimulator/Rotor.cpp:107-185 | on a permutation wiring `encrypt` raises exactly for contact Z at position Z, in both directions |
| StringRotor.BackwardUndoesForward | src/libEnigmaSimulator/Rotor.cpp:107-185 | for a permutation wiring at a position of at most 24, backward `encrypt` undoes forward `encrypt` |
| StringRotor.ForwardUndoesBackward | src/libEnigmaSimulator/Rotor.cpp:107-185 | for a permutation wiring at a position of at most 24, forward `encrypt` undoes backward `encrypt` |
| StringRotor.WillStepNextAtNotchLetters | src/libEnigmaSimulator/Rotor.cpp:187-194 | `will_step_next` holds exactly when the letter name of the position is among the notch letters |
| SimulationPlugboard.Plugboard.constructor | enigma_simulator/simulation/plugboard.py:33-37 | a new plugboard wires every contact to itself |
| SimulationPlugboard.Plugboard.SetPlug | enigma_simulator/simulation/plugboard.py:46-64 | a non-contact source or destination is rejected, then a source or destination already in use; a rejected call changes nothing; a success writes both directions and keeps the table an involution |
| SimulationPlugboard.Plugboard.GetPlug | enigma_simulator/simulation/plugboard.py:73-86 | a non-contact raises "Invalid plug position"; otherwise the other end of the plug, which is plugged back to the key |
| SimulationPlugboard.PlugPreservesInvolution | enigma_simulator/simulation/plugboard.py:54-64 | pairing two unplugged contacts keeps the table an involution; `set_plug(c, c)` leaves it unchanged |
| SimulationPlugboard.PlugTwiceIsIdentity | enigma_simulator/simulation/plugboard.py:73-86 | on an involutive table the plug of a plug is the contact itself |
| SimulationReflector.Create | enigma_simulator/tests/unittest_reflector.py:22-54 | a non-string wiring raises "Reflector wiring should be a string" and a length other than 26 raises "Reflector wiring string incorrect"; an accepted reflector keeps its name and wiring |
| SimulationReflector.Encrypt | enigma_simulator/tests/unittest_reflector.py:56-62 | contact c goes to the contact the c-th wiring letter names |
| SimulationReflector.ReflectTwice | enigma_simulator/tests/unittest_reflector.py:56-62 | on a reciprocal wiring reflecting twice is the identity |
| Contacts.ContactOf | src/libEnigmaSimulator/Rotor.cpp:152 | `RotorContact[...]` of a letter has that letter as its name |
| Contacts.ContactOfLetterOf | src/libEnigmaSimulator/Rotor.cpp:152-158 | the contact named by a contact's name is that contact |
| SimRotor.Rotor.constructor | enigma_simulator/simulation/rotor.py:79-102 | the accepted rotor keeps its name, wiring and notches, starts at position 1 and ring 1, and its reverse wiring is the inverted dict |
| SimRotor.Rotor.Create | enigma_simulator/simulation/rotor.py:79-102 | non-dict wiring raises "Incompatible rotor wiring diagram", a size other than 26 raises "Incomplete wiring diagram" |
| SimRotor.Rotor.SetPosition | enigma_simulator/simulation/rotor.py:50-58 | accepts exactly 1..26, else "Invalid rotor positions" with nothing changed |
| SimRotor.Rotor.SetRingSetting | enigma_simulator/simulation/rotor.py:66-72 | accepts exactly 1..26, else "Invalid ring positions" with nothing changed |
| SimRotor.Rotor.Step | enigma_simulator/simulation/rotor.py:107-111 | 26 wraps to 1 and anything else advances by one |
| SimRotor.Rotor.GetForwardCircuit | enigma_simulator/simulation/rotor.py:118-187 | KeyError exactly when the shifted contact is not a wiring key; other failures are the Enum's ValueError |
| SimRotor.Rotor.GetReturnCircuit | enigma_simulator/simulation/rotor.py:195-273 | KeyError exactly when the shifted contact is not a wiring value |
| SimRotor.ReturnUndoesForward | enigma_simulator/simulation/rotor.py:102-273 | on a rotor wiring the return circuit undoes the forward circuit at every position |
| SimRotor.ForwardUndoesReturn | enigma_simulator/simulation/rotor.py:102-273 | on a rotor wiring the forward circuit undoes the return circuit at every position |
| SimRotor.ForwardAtFirstPosition | enigma_simulator/simulation/rotor.py:135-187 | at position 1 the forward circuit is `wiring[c]` |
| SimRotor.ForwardIsRotation | enigma_simulator/simulation/rotor.py:135-187 | the forward circuit is the wiring conjugated by a rotation through the position, modulo 26 |
| SimRotor.WillStepNextAtNamedNotches | enigma_simulator/simulation/rotor.py:280-282 | with notches given as letter names, the rotor signals exactly at the positions they name |
| CoreRotor.Rotor.constructor | src/Core/rotor.py:78-101 | the accepted rotor keeps its arguments, starts at position 1 and ring 1, and its reverse wiring is the inverted dict |
| CoreRotor.Rotor.Create | src/Core/rotor.py:78-101 | non-dict wiring raises "Incompatible rotor wiring diagram", a size other than 26 raises "Incomplete wiring diagram" |
| CoreRotor.Rotor.SetPosition | src/Core/rotor.py:51-57 | accepts exactly 1..26, else "Invalid rotor positions" with nothing changed |
| CoreRotor.Rotor.SetRingSetting | src/Core/rotor.py:66-70 | accepts exactly 1..26, else "Invalid ring positions" with nothing changed |
| CoreRotor.Rotor.Step | src/Core/rotor.py:107-111 | 26 wraps to 1 and anything else advances by one |
| CoreRotor.Rotor.GetForwardCircuit | src/Core/rotor.py:119-189 | KeyError exactly when the shifted contact is not a wiring key |
| CoreRotor.Rotor.GetReturnCircuit | src/Core/rotor.py:198-279 | KeyError exactly when the shifted contact is not a wiring value |
| CoreRotor.ReturnUndoesForward | src/Core/rotor.py:101-279 | on a rotor wiring the return circuit undoes the forward circuit |
| CoreRotor.ForwardUndoesReturn | src/Core/rotor.py:101-279 | on a rotor wiring the forward circuit undoes the return circuit |
| CoreRotor.ForwardIsRotation | src/Core/rotor.py:119-189 | the forward circuit is the wiring conjugated by a rotation through the position |
| CoreRotor.WillStepNextIsIntMembership | src/Core/rotor.py:287-288 | `will_step_next` holds exactly when the integer position is in the notch list |
| CoreRotor.WillStepNextMissesLetterNotch | src/Core/rotor.py:287-288 | with the notch given as "Q" the rotor at Q does not signal |
| CoreRotor.WillStepNextByNameAtNotch | src/Core/rotor.py:287-288 | the letter-name test signals exactly at the named notches |
| LegacyRotor.Rotor.constructor | src/Core/Rotor.py:79-100 | the accepted rotor keeps its arguments and starts at position 1 and ring 1 |
| LegacyRotor.Rotor.Create | src/Core/Rotor.py:79-100 | non-dict wiring and a size other than 26 are rejected with their messages |
| LegacyRotor.Rotor.SetPosition | src/Core/Rotor.py:48-54 | accepts exactly 1..26, else "Invalid rotor positions" |
| LegacyRotor.Rotor.SetRingSetting | src/Core/Rotor.py:63-69 | accepts exactly 1..26, else "Invalid ring positions" |
| LegacyRotor.Rotor.Step | src/Core/Rotor.py:106-110 | 26 wraps to 1 and anything else advances by one |
| LegacyRotor.ForwardCircuit | src/Core/Rotor.py:119-159 | KeyError exactly when the shifted contact is not a key; otherwise the wiring value shifted back |
| LegacyRotor.ReturnCircuit | src/Core/Rotor.py:168-211 | `list.index` raises exactly when the shifted contact is not a value |
| LegacyRotor.ForwardIsContact | src/Core/Rotor.py:119-159 | on a rotor wiring the forward circuit sends contacts 1..26 to 1..26 |
| LegacyRotor.ForwardAtFirstPosition | src/Core/Rotor.py:119-159 | at position 1 the forward circuit is `wiring[c]` |
| LegacyRotor.ForwardIsRotation | src/Core/Rotor.py:119-159 | the forward circuit is the wiring conjugated by a rotation through the position |
| LegacyRotor.ReturnIsContact | src/Core/Rotor.py:168-211 | on a rotor wiring the return circuit sends contacts 1..26 to 1..26 |
| LegacyRotor.ReturnUndoesForward | src/Core/Rotor.py:119-211 | on a rotor wiring the return circuit undoes the forward circuit |
| LegacyRotor.ForwardUndoesReturn | src/Core/Rotor.py:119-211 | on a rotor wiring the forward circuit undoes the return circuit |
| LegacyRotor.WillStepNextAtNotches | src/Core/Rotor.py:219-220 | `WillStepNext` holds exactly when the position is in the notch list |
| LegacyMachine.CheckContact | src/Core/enigma_machine.py:110-111 | a trace conversion passes a contact 1..26 on unchanged and raises ValueError for any other |
| LegacyMachine.EnigmaMachine.Create | src/Core/enigma_machine.py:59-86 | every setup rotor name must be in the rotor dict, else "Invalid rotor name 'X'!" for the first missing one; the rotors are stored in setup order with no pending double step |
| LegacyMachine.EnigmaMachine.GetRotor | src/Core/enigma_machine.py:94-99 | as written: the rotor for 0..len-1, "Incorrect rotor number." below 0 or above len, and IndexError at len |
| LegacyMachine.EnigmaMachine.GetRotorChecked | src/Core/enigma_machine.py:94-99 | with the intended bound the rotor for 0..len-1 and "Incorrect rotor number." for every other number |
| LegacyMachine.AdvanceRotorsSteps | src/Core/enigma_machine.py:194-233 | the rightmost rotor always steps; a pending double step steps rotors 0 and 1 and clears the flag; the middle rotor steps on the rightmost's notch, setting the flag if it lands on its own notch |
| LegacyMachine.EnigmaMachine.StepRotors | src/Core/enigma_machine.py:194-233 | the new positions and flag are `AdvanceRotors` of the old ones; only positions and the flag may change |
| LegacyMachine.EnigmaMachine.SetRotorPosition | src/Core/enigma_machine.py:236-245 | a position outside 1..26 is rejected before the index; on success only that rotor moves |
| LegacyMachine.EnigmaMachine.RunForward | src/Core/enigma_machine.py:139-156 | the loop over `reversed(rotors)` is the forward pass, with each shown contact checked |
| LegacyMachine.EnigmaMachine.RunReturn | src/Core/enigma_machine.py:166-177 | the loop over `rotors` is the return pass |
| LegacyMachine.EnigmaMachine.RunSignal | src/Core/enigma_machine.py:129-188 | plugboard when present, forward pass, reflector, return pass and plugboard give the signal path |
| LegacyMachine.EnigmaMachine.PressKey | src/Core/enigma_machine.py:108-188 | a key outside 1..26 raises before anything moves; otherwise the rotors step and the output is the signal path at the new positions |
| LegacyMachine.RotorStepsInverse | src/Core/enigma_machine.py:139-177 | for one rotor wiring the return step undoes the forward step and back |
| LegacyMachine.PassesInverse | src/Core/enigma_machine.py:139-177 | the return pass undoes the forward pass and back |
| LegacyMachine.SignalPathIsInvolution | src/Core/enigma_machine.py:108-188 | with rotor wirings, a reciprocal reflector and any valid or absent plugboard, the path is an involution without fixed points |
| LegacyMachine.ReturnPassStops | src/Core/enigma_machine.py:164-177 | a return pass that fails partway fails for the whole list |
| LegacyPlugboard.ValidatePosition | src/Core/Plugboard_.py:94-96 | holds exactly for 1..26 |
| LegacyPlugboard.Plugboard.constructor | src/Core/Plugboard_.py:33-34 | no plugs |
| LegacyPlugboard.Plugboard.SetPlug | src/Core/Plugboard_.py:44-59 | invalid positions first, then an in-use source or destination, are rejected with nothing changed; a success appends the one item src -> dest and both ends see each other |
| LegacyPlugboard.Plugboard.GetPlug | src/Core/Plugboard_.py:69-85 | "Invalid source plug position" exactly outside 1..26; an unplugged contact passes through |
| LegacyPlugboard.GetPlugIsContact | src/Core/Plugboard_.py:69-85 | every contact 1..26 comes out as a contact 1..26 |
| LegacyPlugboard.GetPlugSymmetric | src/Core/Plugboard_.py:69-85 | the plug of a plug is the contact itself |
| CorePlugboard.RejectsPosition | src/Core/plugboard.py:44-48 | the guard as written rejects exactly the values below 1 |
| CorePlugboard.RejectsPositionAdmitsPastZ | src/Core/plugboard.py:44-48 | 27 passes the guard, and so does a value outside 1..26 |
| CorePlugboard.Plugboard.constructor | src/Core/plugboard.py:32-33 | no plugs |
| CorePlugboard.RejectsPositionIntended | src/Core/plugboard.py:44-48 | the intended guard rejects exactly the values outside 1..26 |
| CorePlugboard.RejectsPositionIntendedIsStricter | src/Core/plugboard.py:44-48 | the intended guard rejects all the written one does, and 27 besides |
| CorePlugboard.Plugboard.SetPlug | src/Core/plugboard.py:42-58 | the guard, then an in-use source or destination, reject with nothing changed; a success appends src -> dest; then `get_plug(src)` gives dest, `get_plug(dest)` raises AttributeError unless dest is src, and the intended lookup pairs both ends |
| CorePlugboard.Plugboard.GetPlug | src/Core/plugboard.py:67-83 | as written under Python 3: ValueError where the guard rejects; AttributeError exactly for a contact that is only a value; the value of a key; an unplugged contact passes through |
| CorePlugboard.Plugboard.GetPlugIntended | src/Core/plugboard.py:67-83 | with the reverse lookup working: an error exactly where the guard rejects; an unplugged contact passes through |
| CorePlugboard.GetPlugRaisesOnDestination | src/Core/plugboard.py:80-81 | looking up the destination end of any stored plug between two contacts raises AttributeError |
| CorePlugboard.GetPlugIntendedSymmetric | src/Core/plugboard.py:67-83 | under the intended lookup the plug of a plug is the contact itself |
| PlugDicts.Lookup | src/Core/Plugboard_.py:74-85 | a contact in no plug is returned unchanged |
| PlugDicts.LookupOfPlug | src/Core/Plugboard_.py:74-85 | both ends of a stored plug look each other up |
| PlugDicts.LookupInvolution | src/Core/Plugboard_.py:74-85 | on disjoint plugs lookup is an involution |
| PlugDicts.AddPlug | src/Core/Plugboard_.py:52-59 | storing a plug between two unused contacts appends it and keeps the plugs disjoint |
| CoreReflector.Create | src/Core/reflector.py:42-53 | non-dict wiring and a size other than 26 raise their messages; `Name` and `Wiring` give back the arguments |
| CoreReflector.GetCircuit | src/Core/reflector.py:62-63 | `wiring[p]`, KeyError exactly when p is not a key |
| CoreReflector.ReflectTwice | src/Core/reflector.py:62-63 | on a reciprocal wiring reflecting twice is the identity and no contact maps to itself |
| RotorContact.CharacterToContact | src/Core/RotorContact.py:72-91 | non-strings and strings not of length 1 are rejected; exactly the letters of either case are accepted, at `ord(upper(ch)) - 64` |
| RotorContact.ContactToCharacter | src/Core/RotorContact.py:98-108 | non-ints are rejected, exactly 1..26 are accepted, giving one upper-case letter |
| RotorContact.LetterRoundTrip | src/Core/RotorContact.py:72-108 | a letter goes to a contact and comes back in upper case |
| RotorContact.ContactRoundTrip | src/Core/RotorContact.py:72-108 | a contact goes to a letter and comes back |
| RotorContact.CaseInsensitive | src/Core/RotorContact.py:83 | a lower-case letter gives the contact of its upper case; 'a' and 'A' give 1 |
| RotorContact.ContactToCharacterIsPinName | src/Core/RotorContact.py:98-108 | the character of contact n is the name of RotorContact n |
| OneBased.ShiftsInverse | src/Core/Rotor.py:128-207 | STEP 3 undoes STEP 1 and STEP 1 undoes STEP 3 at every position |
| OneBased.NextPosition | src/Core/Rotor.py:106-110 | the step is `position % 26 + 1` |
| OneBased.PinNameInjective | enigma_simulator/simulation/rotor.py:281-282 | distinct contacts have distinct names |
| PyDicts.Get | src/Core/Rotor.py:133-135 | `d[k]`: None exactly when k is not a key, else the value of its item |
| PyDicts.Put | src/Core/plugboard.py:58 | `d[k] = v` keeps the other keys and adds k |
| PyDicts.GetPut | src/Core/plugboard.py:58 | after `d[k] = v`, k gives v and every other key is as before |
| PyDicts.InvertHasKey | enigma_simulator/simulation/rotor.py:102 | the inverted dict has a key exactly for each value of the original |
| PyDicts.GetInvert | enigma_simulator/simulation/rotor.py:102 | the inverted dict sends a value to the last key holding it |
| PyDicts.FirstKeyWithValue | src/Core/Rotor.py:175 | `keys()[values().index(v)]` is the first key holding v, ValueError when none does |
| PyDicts.ReverseLookups | src/Core/Rotor.py:175 | with no repeated value both reverse lookups agree and undo the forward lookup |
| PyDicts.LookupOfReverse | src/Core/Rotor.py:175 | the forward lookup of a reverse lookup gives the value back |
| CppMachine.EnigmaMachine.constructor | src/libEnigmaSimulator/EnigmaMachine.cpp:24-29 | a new machine is unconfigured, with an empty error, no plugboard and no reflector |
| CppMachine.FirstUnknown | src/libEnigmaSimulator/EnigmaMachine.cpp:49-58 | None exactly when every name is valid; otherwise the first invalid index in list order |
| CppMachine.PlacedOnEmpty | src/libEnigmaSimulator/EnigmaMachine.cpp:47-64 | on a fresh machine the rotors land at consecutive positions in list order |
| CppMachine.PlacedKeepsTakenPositions | src/libEnigmaSimulator/EnigmaMachine.cpp:60-64 | `insert` does not replace positions already taken |
| CppMachine.EnigmaMachine.Configure | src/libEnigmaSimulator/EnigmaMachine.cpp:31-88 | a wrong rotor count returns false with "Invalid number of rotors specified"; the first unknown name returns false with "Unknown rotor 'X'"; otherwise rotors are placed, a plugboard is allocated only when the model has one, the reflector stays null whatever its name, and the machine is configured with the error untouched |
| CppPlugboard.ResetMap | src/libEnigmaSimulator/Plugboard.cpp:69-79 | 26 entries, each contact A..Z mapped to `end` |
| CppPlugboard.Plugboard.constructor | src/libEnigmaSimulator/Plugboard.cpp:20-23 | the constructor's map is the reset map |
| CppPlugboard.Plugboard.Reset | src/libEnigmaSimulator/Plugboard.cpp:69-79 | the map is the reset map whatever it held |
| CppPlugboard.ResetUnplugsEveryLetter | src/libEnigmaSimulator/Plugboard.cpp:69-79 | after a reset every letter reads as unplugged |
| CppPlugboard.Subscript | src/libEnigmaSimulator/Plugboard.cpp:45-46 | `operator[]` reads the stored value, first inserting 0 for a missing key |
| CppPlugboard.Checks | src/libEnigmaSimulator/Plugboard.cpp:40-50 | the checks pass exactly for distinct unplugged letters |
| CppPlugboard.Plugboard.SetPlug | src/libEnigmaSimulator/Plugboard.cpp:31-53 | "Source / destination invalid", then "Source and destination the same", then "Source / destination in use"; every throw leaves the entries as they were; as written the inserts change no letter's entry |
| CppPlugboard.SetPlugLeavesEntriesUnchanged | src/libEnigmaSimulator/Plugboard.cpp:51-52 | on a board where every letter has an entry, the two inserts leave the entries unchanged |
| CppPlugboard.PlugAToZIsLost | src/libEnigmaSimulator/Plugboard.cpp:51-52 | after a reset, plugging A into Z succeeds and A still reads `end` |
| CppPlugboard.Plugboard.SetPlugAssigning | src/libEnigmaSimulator/Plugboard.cpp:51-52 | with assignments, a successful plug makes each end read the other |
| CppPlugboard.AssigningKeepsPlugsPaired | src/libEnigmaSimulator/Plugboard.cpp:51-52 | with assignments, a plug that passes the checks keeps the board paired |
| CppPlugboard.Plugboard.GetPlug | src/libEnigmaSimulator/Plugboard.cpp:64-67 | the raw entry read through `operator[]` |
| CppReflector.Reflector.Create | src/libEnigmaSimulator/Reflector.cpp:19-28 | "Wiring layout is not valid" exactly when the configuration does not have 26 entries; otherwise the name and wiring are kept |
| CppReflector.Reflector.Encrypt | src/libEnigmaSimulator/Reflector.cpp:30-35 | forward is `WiringPathForward`, reverse is `WiringPathReverse` |
| CppReflector.TestLayoutAcceptedThoughNotInvolutive | src/libEnigmaSimulator/Reflector.cpp:22-27 | a full rotor layout that is not an involution is accepted: A goes to E and E does not go to A |
| RotorWireConfig.RotorWireConfiguration.constructor | src/libEnigmaSimulator/RotorWireConfiguration.h:34 | no entries, the iterator at `end()` |
| RotorWireConfig.RotorWireConfiguration.Create | src/libEnigmaSimulator/RotorWireConfiguration.h:36-56 | a destination layout or source layout of the wrong length throws its message; otherwise entry i is keyed i+1 with the letters' contacts, and a duplicate throws |
| RotorWireConfig.AddEntryCheck | src/libEnigmaSimulator/RotorWireConfiguration.h:139-155 | passes exactly when no entry shares the src or the dest; the first clash decides the message |
| RotorWireConfig.AddEntryKeepsColumnsInjective | src/libEnigmaSimulator/RotorWireConfiguration.h:139-155 | an accepted entry keeps both columns injective |
| RotorWireConfig.RotorWireConfiguration.AddEntry | src/libEnigmaSimulator/RotorWireConfiguration.h:139-155 | the outcome is the check; only an accepted entry is inserted |
| RotorWireConfig.BuildIsLayoutTable | src/libEnigmaSimulator/RotorWireConfiguration.h:49-55 | the build succeeds exactly when no src and no dest repeats, and then holds entry i+1 -> (srcs[i], dests[i]) |
| RotorWireConfig.BuildStopsAtFailure | src/libEnigmaSimulator/RotorWireConfiguration.h:49-55 | once the loop throws at step k, the whole build throws the same way |
| RotorWireConfig.PathForward | src/libEnigmaSimulator/RotorWireConfiguration.h:62-67 | "Invalid wiring" exactly unless 26 entries are present; otherwise the dest of the entry keyed by the position |
| RotorWireConfig.RotorWireConfiguration.WiringPathForward | src/libEnigmaSimulator/RotorWireConfiguration.h:62-67 | the configuration's forward path |
| RotorWireConfig.LastSrcWithDestIsLast | src/libEnigmaSimulator/RotorWireConfiguration.h:69-84 | `LastSrcWithDest`, what the reverse walk leaves in its result, is the src of the last entry holding the dest |
| RotorWireConfig.LastSrcWithDestMissing | src/libEnigmaSimulator/RotorWireConfiguration.h:69-84 | `LastSrcWithDest` is `end` when no entry holds the dest |
| RotorWireConfig.PathReverse | src/libEnigmaSimulator/RotorWireConfiguration.h:69-84 | the walk over every entry returns the last matching src |
| RotorWireConfig.RotorWireConfiguration.WiringPathReverse | src/libEnigmaSimulator/RotorWireConfiguration.h:69-84 | "Invalid wiring" unless valid, else the last matching src |
| RotorWireConfig.ReverseUndoesForward | src/libEnigmaSimulator/RotorWireConfiguration.h:29-84 | with the default source layout and a 26-letter destination layout, reverse undoes forward |
| RotorWireConfig.RotorWireConfiguration.FirstWiringPath | src/libEnigmaSimulator/RotorWireConfiguration.h:86 | the iterator designates the first entry, or `end()` on an empty table |
| RotorWireConfig.RotorWireConfiguration.NextWiringPath | src/libEnigmaSimulator/RotorWireConfiguration.h:88-91 | the iterator moves to the next entry in key order; at `end()` it stays there |
| RotorWireConfig.KeyAfterWalks | src/libEnigmaSimulator/RotorWireConfiguration.h:88-91 | stepping from an entry reaches the next entry, or `end()` after the last |
| RotorWireConfig.RotorWireConfiguration.CurrentWiringPath | src/libEnigmaSimulator/RotorWireConfiguration.h:93-101 | the designated entry, {end, end} at `end()` |
| RotorWireConfig.RotorWireConfiguration.GetSrcWiringPathStr | src/libEnigmaSimulator/RotorWireConfiguration.h:113-122 | the letters of the src column in key order |
| RotorWireConfig.RotorWireConfiguration.GetDestWiringPathStr | src/libEnigmaSimulator/RotorWireConfiguration.h:124-133 | the letters of the dest column in key order |
| RotorWireConfig.PathStringsRoundTrip | src/libEnigmaSimulator/RotorWireConfiguration.h:49-55 | the path strings of a table built from upper-case layouts are those layouts |
| CppContacts.DefaultSrcLayoutIsIdentity | src/libEnigmaSimulator/RotorWireConfiguration.h:29 | `DEFAULT_SRC_LAYOUT` names contact i+1 at index i |
| CppContacts.LayoutLetterRoundTrip | src/libEnigmaSimulator/RotorWireConfiguration.h:49-55 | `RotorContactStr` of a layout letter's contact is that letter |
| CppContacts.LayoutContactsDistinct | src/libEnigmaSimulator/RotorWireConfiguration.h:49-55 | distinct layout letters give distinct contacts |
| WireConfiguredDevice.WireConfiguredDevice.constructor | src/libEnigmaSimulator/WireConfiguredDevice.h:30 | no entries |
| WireConfiguredDevice.WireConfiguredDevice.Create | src/libEnigmaSimulator/WireConfiguredDevice.h:32-45 | a layout of the wrong length throws "Incorrect wiring entries!"; otherwise src i+1 maps to the contact of layout[i], and a repeated letter throws |
| WireConfiguredDevice.AddEntryCheck | src/libEnigmaSimulator/WireConfiguredDevice.h:80-101 | capacity, then a duplicate src key, then a duplicate dest value, each with its message |
| WireConfiguredDevice.AddEntryKeepsInjective | src/libEnigmaSimulator/WireConfiguredDevice.h:80-101 | an accepted entry keeps the size within 26 and the dests unique |
| WireConfiguredDevice.WireConfiguredDevice.AddEntry | src/libEnigmaSimulator/WireConfiguredDevice.h:80-101 | the outcome is the check; only an accepted entry is inserted; the device stays valid |
| WireConfiguredDevice.BuildIsLayoutMap | src/libEnigmaSimulator/WireConfiguredDevice.h:39-45 | up to 26 dests, the build succeeds exactly when no dest repeats, and then maps i+1 to dests[i] |
| WireConfiguredDevice.BuildStopsAtFailure | src/libEnigmaSimulator/WireConfiguredDevice.h:39-45 | once the loop throws at step k, the whole build throws the same way |
| WireConfiguredDevice.LayoutMapHasValue | src/libEnigmaSimulator/WireConfiguredDevice.h:39-45 | the built map holds a dest exactly when the layout does |
| WireConfiguredDevice.PathForward | src/libEnigmaSimulator/WireConfiguredDevice.h:51-58 | "Invalid wiring" exactly unless 26 entries are present; otherwise the dest of src |
| WireConfiguredDevice.WireConfiguredDevice.WiringPathForward | src/libEnigmaSimulator/WireConfiguredDevice.h:51-58 | the device's forward path |
| WireConfiguredDevice.LastKeyWithValueIsLast | src/libEnigmaSimulator/WireConfiguredDevice.h:60-75 | `LastKeyWithValue`, what the reverse walk leaves in its result, is the last src holding the dest |
| WireConfiguredDevice.LastKeyWithValueMissing | src/libEnigmaSimulator/WireConfiguredDevice.h:60-75 | `LastKeyWithValue` is `end` when no src holds the dest |
| WireConfiguredDevice.PathReverse | src/libEnigmaSimulator/WireConfiguredDevice.h:60-75 | the walk over every entry returns the last matching src |
| WireConfiguredDevice.WireConfiguredDevice.WiringPathReverse | src/libEnigmaSimulator/WireConfiguredDevice.h:60-75 | "Invalid wiring" unless valid, else the last matching src |
| WireConfiguredDevice.ReverseUndoesForward | src/libEnigmaSimulator/WireConfiguredDevice.h:51-75 | on a full map with unique dests reverse undoes forward |
| WireConfiguredDevice.ForwardUndoesReverse | src/libEnigmaSimulator/WireConfiguredDevice.h:51-75 | forward undoes reverse on every dest the map holds |
| RotorWiringLayout.Default | src/libEnigmaSimulator/RotorWiringLayout.h:28 | the default layout has an empty map |
| RotorWiringLayout.AddEntry | src/libEnigmaSimulator/RotorWiringLayout.h:32-50 | "Too many wiring entries!" at 25 entries, else "Duplicate wiring entries!" when src or dest is a key, else success |
| RotorWiringLayout.DefaultAcceptsEveryCall | src/libEnigmaSimulator/RotorWiringLayout.h:28-50 | since nothing is inserted, every call on a default layout succeeds |
| RotorWiringLayout.DestSearchedAmongKeys | src/libEnigmaSimulator/RotorWiringLayout.h:39-44 | a dest equal to a present key is rejected, a dest equal to a present value is not |
| CppMaps.Find | src/libEnigmaSimulator/WireConfiguredDevice.h:57 | `find`: None exactly when the key is absent, else its value |
| CppMaps.FindInsert | src/libEnigmaSimulator/WireConfiguredDevice.h:100 | after `insert` the key holds the new value only if it was absent; other keys are unchanged |
| CppMaps.InsertExistingKey | src/libEnigmaSimulator/Plugboard.cpp:51-52 | `insert` of a present key changes nothing |
| CppMaps.InsertPastLastKey | src/libEnigmaSimulator/EnigmaMachine.cpp:60-64 | a key beyond every present key is appended |
| CppMaps.FindAssign | src/libEnigmaSimulator/Plugboard.cpp:51-52 | after assignment the key holds the new value and the others are unchanged |
| StringUtils.Reverse | src/libEnigmaSimulator/StringUtils.cpp:24-26 | `std::reverse` on a range reverses it and leaves the rest alone |
| StringUtils.LeftRotateString | src/libEnigmaSimulator/StringUtils.cpp:22-27 | three reversals give s[k..] + s[..k] |
| StringUtils.RightRotateString | src/libEnigmaSimulator/StringUtils.cpp:30-33 | the result is s[len-k..] + s[..len-k] |
| StringUtils.RotationIsPermutation | src/libEnigmaSimulator/StringUtils.cpp:22-33 | a rotation keeps the length and the multiset of characters |
| StringUtils.RotationsUndo | src/libEnigmaSimulator/StringUtils.cpp:22-33 | a left rotation by k is undone by the right rotation by k; rotating by 0 or by the length is the identity |
| StringUtils.OffsetStringValue | src/libEnigmaSimulator/StringUtils.cpp:37-46 | each character is rewritten on its own, by `((ch - 65) + 1) + offset` reduced once when above Z |
| StringUtils.OffsetIsCaesarShift | src/libEnigmaSimulator/StringUtils.cpp:37-46 | on upper-case letters an offset of 0..25 is a Caesar shift modulo 26 |
| StringUtils.OffsetExamples | src/libEnigmaSimulator/StringUtils.cpp:35-46 | offset 1 turns A into B and Z into A; Z with offset 26 reaches index 0, which names no letter |
| SimulationVectors.WiringsArePermutations | enigma_simulator/simulation/enigma_models.py:36-38 | rotors I, II and III are permutations of the alphabet |
| SimulationVectors.WiringsDistinct | enigma_simulator/simulation/enigma_models.py:36-38 | no letter repeats on rotors I, II and III |
| SimulationVectors.RotorIIsPermutation | enigma_simulator/simulation/enigma_models.py:36 | rotor I is a permutation |
| SimulationVectors.RotorIIIsPermutation | enigma_simulator/simulation/enigma_models.py:37 | rotor II is a permutation |
| SimulationVectors.RotorIIIIsPermutation | enigma_simulator/simulation/enigma_models.py:38 | rotor III is a permutation |
| SimulationVectors.UkwBIsReciprocal | src/libEnigmaSimulator/ReflectorFactory.cpp:24 | UKW-B pairs the letters with no letter left on itself |
| SimulationVectors.PlainIsInvolution | enigma_simulator/simulation/plugboard.py:33-37 | the unplugged board is the identity and an involution |
| SimulationVectors.EnigmaIIsReciprocal | enigma_simulator/simulation/enigma_machine.py:109-180 | on the Enigma I with rotors I, II, III and UKW-B, at any positions other than 25, every key enciphers without error, to a different letter, and the output key gives the input back |
| SimulationVectors.RotorIForwardAtA | enigma_simulator/tests/rotor.py:85-117 | at position A rotor I sends A to E, L to T and T to P |
| SimulationVectors.RotorIForwardAtAEnd | enigma_simulator/tests/rotor.py:85-117 | at position A rotor I sends Y to C and Z to J |
| SimulationVectors.RotorIForwardAtC | enigma_simulator/tests/rotor.py:85-117 | at position C rotor I sends A to K and S to Y |
| SimulationVectors.RotorIIIBackwardVectors | enigma_simulator/tests/rotor.py:131-159 | backwards, rotor III sends I to S at position C and Z to X at position E |
| SimulationVectors.StepVectors | enigma_simulator/tests/rotor.py:161-178 | A steps to B and Z steps to B; with notch "Q" the rotor signals at Q and not at A |
| SimulationTraces.ForwardAt | src/libEnigmaSimulator/Rotor.cpp:107-185 | a forward `encrypt` gives the wiring letter at the shifted contact, shifted back |
| SimulationTraces.BackwardAt | src/libEnigmaSimulator/Rotor.cpp:107-185 | a backward `encrypt` on a distinct wiring gives the index holding the shifted contact's letter, shifted back |
| SimulationTraces.ForwardThree | enigma_simulator/simulation/enigma_machine.py:138-151 | three forward steps, rightmost rotor first, make the forward pass |
| SimulationTraces.BackwardThree | enigma_simulator/simulation/enigma_machine.py:163-171 | three backward steps, leftmost rotor first, make the backward pass |
| SimulationTraces.RotorIForwardAt | enigma_simulator/simulation/enigma_models.py:36 | rotor I forwards a contact to the letter of its wiring at the shifted contact |
| SimulationTraces.RotorIBackwardAt | enigma_simulator/simulation/enigma_models.py:36 | rotor I sends a contact back through the inverse table of its wiring |
| SimulationTraces.RotorIIForwardAt | enigma_simulator/simulation/enigma_models.py:37 | the same for rotor II forwards |
| SimulationTraces.RotorIIBackwardAt | enigma_simulator/simulation/enigma_models.py:37 | the same for rotor II backwards |
| SimulationTraces.RotorIIIForwardAt | enigma_simulator/simulation/enigma_models.py:38 | the same for rotor III forwards |
| SimulationTraces.RotorIIIBackwardAt | enigma_simulator/simulation/enigma_models.py:38 | the same for rotor III backwards |
| SimulationTraces.EnigmaIForward | enigma_simulator/simulation/enigma_machine.py:138-151 | the forward pass of the Enigma I through rotors III, II and I |
| SimulationTraces.EnigmaIBackward | enigma_simulator/simulation/enigma_machine.py:163-171 | the backward pass of the Enigma I through rotors I, II and III |
| SimulationTraces.EnigmaITrace | enigma_simulator/simulation/enigma_machine.py:109-180 | a key traced through the three rotors, UKW-B and back is the machine's signal path |
| SimulationMessages.TypeKeys | enigma_simulator/tests/unittest_machine.py:127-129 | typing keys one `press_key` after another gives one output per key |
| SimulationMessages.TypeStep | enigma_simulator/tests/unittest_machine.py:127-129 | a message is its first press, at the stepped positions, followed by the rest from there |
| SimulationMessages.WillStepNextAtOneNotch | src/libEnigmaSimulator/Rotor.cpp:187-194 | a rotor with one notch letter signals exactly at that letter |
| SimulationMessages.StepOffNotch | enigma_simulator/simulation/enigma_machine.py:199-244 | with the rightmost rotor off V and no double step pending, only the rightmost rotor moves |
| SimulationMessages.StepOnNotch | enigma_simulator/simulation/enigma_machine.py:199-244 | with the rightmost rotor on V the middle rotor moves too; landing off E sets no double step |
| SimulationMessages.StepsFromAAA | enigma_simulator/tests/unittest_machine.py:109-132 | from AAA the five presses step AAB, AAC, AAD, AAE, AAF |
| SimulationMessages.StepsFromAAT | enigma_simulator/tests/unittest_machine.py:134-158 | from AAT the five presses step AAU, AAV, ABW, ABX, ABY: the middle rotor turns over once |
| SimulationMessages.NoTurnoverPress1 | enigma_simulator/tests/unittest_machine.py:109-132 | A at positions AAB gives B |
| SimulationMessages.NoTurnoverPress2 | enigma_simulator/tests/unittest_machine.py:109-132 | A at AAC gives D |
| SimulationMessages.NoTurnoverPress3 | enigma_simulator/tests/unittest_machine.py:109-132 | A at AAD gives Z |
| SimulationMessages.NoTurnoverPress4 | enigma_simulator/tests/unittest_machine.py:109-132 | A at AAE gives G |
| SimulationMessages.NoTurnoverPress5 | enigma_simulator/tests/unittest_machine.py:109-132 | A at AAF gives O |
| SimulationMessages.TurnoverPress1 | enigma_simulator/tests/unittest_machine.py:134-158 | A at AAU gives B |
| SimulationMessages.TurnoverPress2 | enigma_simulator/tests/unittest_machine.py:134-158 | A at AAV gives M |
| SimulationMessages.TurnoverPress3 | enigma_simulator/tests/unittest_machine.py:134-158 | A at ABW gives U |
| SimulationMessages.TurnoverPress4 | enigma_simulator/tests/unittest_machine.py:134-158 | A at ABX gives Q |
| SimulationMessages.TurnoverPress5 | enigma_simulator/tests/unittest_machine.py:134-158 | A at ABY gives O |
| SimulationMessages.MessageNoTurnover | enigma_simulator/tests/unittest_machine.py:109-132 | AAAAA typed from AAA gives BDZGO |
| SimulationMessages.MessageRightRotorTurnover | enigma_simulator/tests/unittest_machine.py:134-158 | AAAAA typed from AAT gives BMUQO |

## Left out

- Logging and tracing are left out: the `Logger`, the debug messages and the C++ `DEBUG_LOG`. Where building a trace message can raise, the raise is kept: the src/Core machine converts every shown contact, by the conversion of src/Core/RotorContact.py (see the lines on src/Core/rotor_contact.py below).
- The `print` of the double step in the simulation `_step_rotors` is not modelled; it is output only.
- Rotor and reflector factories, the model catalogs and the command-line front end are not part of this model. The catalog is a parameter of `Configure`.
- enigma_simulator/simulation/reflector.py and enigma_simulator/simulation/rotor_contact.py are not part of this model. The simulation reflector follows its unit tests. The RotorContact enum is taken as A = 0 .. Z = 25, the contacts the string rotor works on.
- `Definitions.h` is not part of this model. `MAX_WIRING_ENTRIES` = 26 and the `RotorContactStr` letter table are assumptions taken from the layouts and tests.
- CppMachine.EnigmaMachine.Configure: requires the machine type to be in the catalog, since `find(...)->second` on a missing type is undefined behaviour; the `Rotor` objects `CreateRotor` makes are kept only as rotor names.
- CppMachine.EnigmaMachine.Configure: models the default build without `__IMPLEMENT_REFLECTOR__`, so the reflector name is never checked.
- RotorWireConfig.RotorWireConfiguration.WiringPathForward: requires the position to be a key of a full table, because `find(...)->second` on `end()` is undefined behaviour.
- WireConfiguredDevice.WireConfiguredDevice.WiringPathForward: requires the src to be a key of a full map, for the same reason.
- CppReflector.Reflector.Encrypt: requires, for a forward call on a full table, that the contact is a key, as `WiringPathForward` does.
- StringUtils.LeftRotateString: requires 0 <= offset <= length, since an iterator outside the string is undefined behaviour; StringUtils.RightRotateString likewise.
- StringUtils.OffsetStringValue: requires every new letter to index `RotorContactStr`, since an index outside the table is undefined behaviour.
- RotorWireConfig.RotorWireConfiguration.GetSrcWiringPathStr: requires every src to be a letter contact for `RotorContactStr`; RotorWireConfig.RotorWireConfiguration.GetDestWiringPathStr likewise for every dest.
- RotorWireConfig.RotorWireConfiguration.constructor: the default iterator is left at `end()`; the source leaves it default-initialised, and reading it before `FirstWiringPath` is undefined behaviour.
- CppPlugboard.Plugboard.GetPlug: returns the raw entry, `end` for an unplugged letter, where the comment promises the letter itself.
- SimulationMachine.Machine.PressKey: requires a plugboard; without one the source reads an unbound local and raises `UnboundLocalError`, which is not modelled.
- SimulationMachine.Machine.StepRotors and LegacyMachine.EnigmaMachine.StepRotors: require three rotors; their callers cover the shorter lists, and so does the IndexError of `press_key`.
- LegacyMachine.EnigmaMachine.PressKey: requires every rotor object to sit in one place only, as LegacyMachine.EnigmaMachine.StepRotors does; a rotor listed twice, which the source would step twice, is not modelled.
- SimulationMachine.Machine.PressKey: requires, through the machine invariant, that no rotor object sits in two places; `configure` always builds fresh rotors, so this holds for every configured machine.
- C++ `int` and `char` overflow is not modelled; no modelled value comes near the limits.
- SimulationMessages.TypeKeys: the message tests are stated on the functions that `Machine.PressKey` is proved to follow, with no plug, not on a configured `Machine` object; `Configure` with the Enigma I catalog entry is what builds that machine.
- src/Core/rotor_contact.py, which src/Core/enigma_machine.py:16 imports, is not part of this model. The src/Core machine's `RotorContact.Instance().ContactToCharacter` is taken to be the singleton of src/Core/RotorContact.py. If src/Core/rotor_contact.py defines an Enum without `Instance`, the first trace message raises AttributeError instead.
- LegacyMachine.CheckContact: models `RotorContact.Instance().ContactToCharacter` by src/Core/RotorContact.py, not by the src/Core/rotor_contact.py module that is imported.
- LegacyMachine.EnigmaMachine.RunForward: checks each shown contact with the src/Core/RotorContact.py conversion, not with the imported src/Core/rotor_contact.py.
- LegacyMachine.EnigmaMachine.RunReturn: checks each shown contact with the src/Core/RotorContact.py conversion, not with the imported src/Core/rotor_contact.py.
- LegacyMachine.EnigmaMachine.RunSignal: checks the shown contacts with the src/Core/RotorContact.py conversion, not with the imported src/Core/rotor_contact.py.
- LegacyMachine.EnigmaMachine.PressKey: checks the key and the rotor positions in its trace messages with the src/Core/RotorContact.py conversion, not with the imported src/Core/rotor_contact.py.
- LegacyMachine.EnigmaMachine.SetRotorPosition: takes `RotorContact.Instance().NUMBER_OF_CONTACTS` to be 26, the src/Core/RotorContact.py value, not a value of the imported src/Core/rotor_contact.py.
- The rotor ring setting is stored and validated by every rotor but used by no circuit, as in the source, where the ring code of src/Core/Rotor.py sits inside string literals.

## Findings

| source | as written | input that shows it | evidently intended | confidence | as-written member | corrected member |
|---|---|---|---|---|---|---|
| src/Core/plugboard.py:44-48 | `not (src >= 1) and (src <= N)` rejects only values below 1 | `set_plug(27, 1)` passes the range check; the unit test expects a ValueError | reject every value outside 1..26, as `__ValidatePosition` in src/Core/Plugboard_.py:94-96 does | high, not executed | CorePlugboard.RejectsPositionAdmitsPastZ | CorePlugboard.RejectsPositionIntended |
| src/Core/plugboard.py:80-81 | the reverse lookup is `self.wiring.keys()[self.wiring.values().index(src)]` | under Python 3, `set_plug(7, 13)` then `get_plug(13)` raises AttributeError: a values view has no `index` | the key whose value is src, e.g. `next(k for k, v in self.wiring.items() if v == src)` | high, not executed | CorePlugboard.GetPlugRaisesOnDestination | CorePlugboard.GetPlugIntendedSymmetric |
| src/Core/enigma_machine.py:96-99 | the bound check is `rotorNo > len(self._rotors)` | `GetRotor(len(rotors))` passes the check and raises IndexError | `rotorNo >= len(...)`, so every bad number gives "Incorrect rotor number." | high, not executed | LegacyMachine.EnigmaMachine.GetRotor | LegacyMachine.EnigmaMachine.GetRotorChecked |
| src/Core/rotor.py:287-288 | `will_step_next` tests the integer position against the notch list | a rotor with notch `["Q"]` at position Q (17) does not signal; the unit test expects True | test the letter name of the position, as the other rotors do | medium, not executed | CoreRotor.WillStepNextMissesLetterNotch | CoreRotor.WillStepNextByNameAtNotch |
| src/libEnigmaSimulator/Plugboard.cpp:51-52 | `entries_.insert({src, dest})` cannot overwrite the entries `Reset` created | after a reset, `SetPlug(A, Z)` succeeds and `GetPlug(A)` is still `end`; the test expects Z | assign `entries_[src] = dest` and `entries_[dest] = src` | high, not executed | CppPlugboard.PlugAToZIsLost | CppPlugboard.AssigningKeepsPlugsPaired |
