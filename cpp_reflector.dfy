/** src/libEnigmaSimulator/Reflector.cpp: a named reflector that keeps a
    copy of a rotor wire configuration and sends a contact through it
    forward or in reverse. */
module CppReflector {
  import opened Wrappers
  import opened CppContacts
  import opened LetterTables
  import opened CppMaps
  import opened RotorWireConfig

  class Reflector {
    const name: string
    /** `wiring_`: the entries of the configuration copied in. */
    const wiring: Table

    constructor (name: string, wiring: Table)
      ensures this.name == name && this.wiring == wiring
    {
      this.name := name;
      this.wiring := wiring;
    }

    /** `Reflector(name, wiring)`: throws unless the configuration has all
        26 entries; nothing else about the wiring is checked. */
    static method Create(name: string, config: RotorWireConfiguration) returns (r: Result<Reflector>)
      ensures r.Err? <==> !config.HasValidWiring()
      ensures r.Err? ==> r.error == Thrown("Wiring layout is not valid")
      ensures r.Ok? ==> fresh(r.value) && r.value.name == name && r.value.wiring == config.wiring
    {
      if !config.HasValidWiring() {
        return Err(Thrown("Wiring layout is not valid"));
      }
      var reflector := new Reflector(name, config.wiring);
      return Ok(reflector);
    }

    /** `Encrypt(contact, forward)`. */
    method Encrypt(contact: int, forward: bool) returns (r: Result<int>)
      requires forward && |wiring| == MaxWiringEntries ==> HasKey(wiring, contact)
      ensures forward ==> r == PathForward(wiring, contact)
      ensures !forward ==> r == if |wiring| != MaxWiringEntries then Err(Thrown("Invalid wiring"))
                                else Ok(LastSrcWithDest(wiring, contact))
    {
      if forward {
        r := PathForward(wiring, contact);
      } else {
        r := PathReverse(wiring, contact);
      }
    }
  }

  /** The layout the reflector tests build from: a rotor wiring, not an
      involution. */
  const TestLayout: string := "EKMFLGDQVZNTOWYHXUSPAIBRCJ"

  /** The index of each letter in the test layout, letter by letter. */
  const TestLayoutInverse: seq<int> :=
    [20, 22, 24, 6, 0, 3, 5, 15, 21, 25, 1, 4, 2, 10, 12, 19, 7, 23, 18, 11, 17, 8, 13, 16, 14, 9]

  /** The first thirteen places of the test layout hold letters the inverse finds there ... */
  lemma TestLayoutFirstHalfInverted()
    ensures forall i :: 0 <= i < 13 ==> 'A' <= TestLayout[i] <= 'Z' && TestLayoutInverse[TestLayout[i] as int - 65] == i
  {
    forall i | 0 <= i < 13 ensures 'A' <= TestLayout[i] <= 'Z' && TestLayoutInverse[TestLayout[i] as int - 65] == i {
      IndexCases(i);
    }
  }

  /** ... and so do the last thirteen. */
  lemma TestLayoutSecondHalfInverted()
    ensures forall i :: 13 <= i < 26 ==> 'A' <= TestLayout[i] <= 'Z' && TestLayoutInverse[TestLayout[i] as int - 65] == i
  {
    forall i | 13 <= i < 26 ensures 'A' <= TestLayout[i] <= 'Z' && TestLayoutInverse[TestLayout[i] as int - 65] == i {
      IndexCases(i);
    }
  }

  /** The test layout names 26 distinct letters. */
  lemma TestLayoutIsLetterLayout()
    ensures IsLetterLayout(TestLayout)
  {
    TestLayoutFirstHalfInverted();
    TestLayoutSecondHalfInverted();
    DistinctByInverse(TestLayout, TestLayoutInverse);
  }

  /** The configuration built from the test layout has 26 entries, so the
      constructor accepts it, although forward encryption sends A to E and E
      to L rather than back to A. */
  lemma TestLayoutAcceptedThoughNotInvolutive()
    ensures var b := Build(LayoutContacts(DefaultSrcLayout), LayoutContacts(TestLayout));
      b.Ok? && |b.value| == MaxWiringEntries && HasKey(b.value, 1) && HasKey(b.value, 5) &&
      PathForward(b.value, 1) == Ok(5) && PathForward(b.value, 5) == Ok(12)
  {
    DefaultSrcLayoutIsIdentity();
    TestLayoutIsLetterLayout();
    var srcs := LayoutContacts(DefaultSrcLayout);
    var dests := LayoutContacts(TestLayout);
    LayoutContactsDistinct(DefaultSrcLayout);
    LayoutContactsDistinct(TestLayout);
    BuildIsLayoutTable(srcs, dests);
    var t := LayoutTable(srcs, dests);
    assert t[0].0 == 1 && t[4].0 == 5;
  }
}
