/** src/libEnigmaSimulator/RotorWiringLayout.h: a layout that only
    validates entries. `AddEntry` checks capacity (25 entries) and whether
    the src or the dest is already a KEY of the map, and never inserts, so
    the map keeps whatever it was built with. */
module RotorWiringLayout {
  import opened Wrappers
  import opened CppMaps

  /** `MAX_WIRING_ENTRIES` as this header defines it. */
  const LayoutCapacity: int := 25

  datatype RotorWiringLayout = RotorWiringLayout(wiring: Map<int>)

  /** The default constructor: an empty map. */
  function Default(): (l: RotorWiringLayout)
    ensures l.wiring == []
  {
    RotorWiringLayout([])
  }

  /** `AddEntry(src, dest)`: the outcome only, since the map is not changed. */
  function AddEntry(l: RotorWiringLayout, src: int, dest: int): (o: Outcome)
    ensures o.Pass? <==> |l.wiring| != LayoutCapacity && !HasKey(l.wiring, src) && !HasKey(l.wiring, dest)
    ensures |l.wiring| == LayoutCapacity ==> o == Fail(Thrown("Too many wiring entries!"))
    ensures |l.wiring| != LayoutCapacity && o.Fail? ==> o == Fail(Thrown("Duplicate wiring entries!"))
  {
    if |l.wiring| == LayoutCapacity then Fail(Thrown("Too many wiring entries!"))
    else if Find(l.wiring, src).Some? || Find(l.wiring, dest).Some? then Fail(Thrown("Duplicate wiring entries!"))
    else Pass
  }

  /** Since nothing is ever inserted, every call on a default layout passes,
      however many are made and whatever they repeat. */
  lemma DefaultAcceptsEveryCall(calls: seq<(int, int)>)
    ensures forall i :: 0 <= i < |calls| ==> AddEntry(Default(), calls[i].0, calls[i].1) == Pass
  {
  }

  /** The dest is looked up among the keys, not the values: on a map holding
      1 -> 5, a dest of 1 is refused and a dest of 5 is not. */
  lemma DestSearchedAmongKeys()
    ensures AddEntry(RotorWiringLayout([(1, 5)]), 2, 1) == Fail(Thrown("Duplicate wiring entries!"))
    ensures AddEntry(RotorWiringLayout([(1, 5)]), 2, 5) == Pass
  {
    var m: Map<int> := [(1, 5)];
    assert m[0].0 == 1;
  }
}
