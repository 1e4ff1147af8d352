/** src/libEnigmaSimulator/WireConfiguredDevice.h: a device wired by a map
    from each src contact to a dest contact, built from one 26-letter
    layout. */
module WireConfiguredDevice {
  import opened Wrappers
  import opened CppContacts
  import opened LetterTables
  import opened CppMaps

  const TooMany: string := "Too many wiring entries!"
  const DuplicateSource: string := "Duplicate source wiring contact!"
  const DuplicateDest: string := "Duplicate destination wiring contact!"

  predicate HasValue(m: seq<(int, int)>, v: int) {
    exists i :: 0 <= i < |m| && m[i].1 == v
  }

  /** No dest twice. */
  predicate ValuesUnique(m: seq<(int, int)>) {
    forall i, j :: 0 <= i < j < |m| ==> m[i].1 != m[j].1
  }

  /** What `AddEntry`'s checks decide, in their order: capacity, src key,
      dest value. */
  function AddEntryCheck(m: Map<int>, src: int, dest: int): (o: Outcome)
    ensures o.Pass? <==> |m| != MaxWiringEntries && !HasKey(m, src) && !HasValue(m, dest)
    ensures |m| == MaxWiringEntries ==> o == Fail(Thrown(TooMany))
    ensures |m| != MaxWiringEntries && HasKey(m, src) ==> o == Fail(Thrown(DuplicateSource))
    ensures |m| != MaxWiringEntries && !HasKey(m, src) && HasValue(m, dest) ==> o == Fail(Thrown(DuplicateDest))
  {
    if |m| == MaxWiringEntries then Fail(Thrown(TooMany))
    else if Find(m, src).Some? then Fail(Thrown(DuplicateSource))
    else if HasValue(m, dest) then Fail(Thrown(DuplicateDest))
    else Pass
  }

  /** A successful `AddEntry` keeps the size within 26 and the dests unique. */
  lemma AddEntryKeepsInjective(m: Map<int>, src: int, dest: int)
    requires |m| <= MaxWiringEntries && ValuesUnique(m) && AddEntryCheck(m, src, dest).Pass?
    ensures |Insert(m, src, dest)| == |m| + 1 <= MaxWiringEntries
    ensures ValuesUnique(Insert(m, src, dest))
  {
    var r := Insert(m, src, dest);
    forall i, j | 0 <= i < j < |r| ensures r[i].1 != r[j].1 {
      assert r[i] in m || r[i] == (src, dest);
      assert r[j] in m || r[j] == (src, dest);
      assert r[i].0 < r[j].0;
    }
  }

  /** The map the constructor's loop builds when no check fails: src i + 1
      goes to the i-th dest. */
  function LayoutMap(dests: seq<int>): (m: Map<int>)
    ensures |m| == |dests|
    ensures forall i :: 0 <= i < |m| ==> m[i] == (i + 1, dests[i])
  {
    seq(|dests|, i requires 0 <= i < |dests| => (i + 1, dests[i]))
  }

  /** The constructor's loop: `AddEntry(i + 1, dests[i])` in turn, stopping
      at the first exception. */
  function Build(dests: seq<int>): Result<Map<int>>
    decreases |dests|
  {
    if dests == [] then Ok([])
    else
      var n := |dests| - 1;
      match Build(dests[..n])
      case Err(e) => Err(e)
      case Ok(m) =>
        match AddEntryCheck(m, n + 1, dests[n])
        case Fail(e) => Err(e)
        case Pass => Ok(Insert(m, n + 1, dests[n]))
  }

  /** Up to 26 dests, the build succeeds exactly when no dest repeats, and
      then yields the layout map. */
  lemma {:induction false} BuildIsLayoutMap(dests: seq<int>)
    requires |dests| <= MaxWiringEntries
    ensures Build(dests).Ok? <==> Distinct(dests)
    ensures Build(dests).Ok? ==> Build(dests).value == LayoutMap(dests)
    decreases |dests|
  {
    if dests != [] {
      var n := |dests| - 1;
      BuildIsLayoutMap(dests[..n]);
      DistinctSnoc(dests);
      if Build(dests[..n]).Ok? {
        BuildUnfold(dests, LayoutMap(dests[..n]));
        LayoutMapStep(dests);
      }
    }
  }

  /** One more entry on a layout map: it passes the checks exactly when its
      dest is new, and then extends the map to the longer layout's. */
  lemma LayoutMapStep(s: seq<int>)
    requires 0 < |s| <= MaxWiringEntries
    ensures var n := |s| - 1;
      AddEntryCheck(LayoutMap(s[..n]), n + 1, s[n]).Pass? <==> s[n] !in s[..n]
    ensures var n := |s| - 1; Insert(LayoutMap(s[..n]), n + 1, s[n]) == LayoutMap(s)
  {
    var n := |s| - 1;
    var m := LayoutMap(s[..n]);
    assert !HasKey(m, n + 1);
    LayoutMapHasValue(s[..n], s[n]);
    InsertPastLastKey(m, n + 1, s[n]);
    LayoutMapSnoc(s);
  }

  /** The last step of the build, on the map its prefix built. */
  lemma BuildUnfold(dests: seq<int>, m: Map<int>)
    requires dests != [] && Build(dests[..|dests| - 1]) == Ok(m)
    ensures var n := |dests| - 1; var o := AddEntryCheck(m, n + 1, dests[n]);
      Build(dests) == if o.Pass? then Ok(Insert(m, n + 1, dests[n])) else Err(o.error)
  {
  }

  /** The layout map of a longer layout extends the shorter one's by one entry. */
  lemma LayoutMapSnoc(dests: seq<int>)
    requires dests != []
    ensures LayoutMap(dests) == LayoutMap(dests[..|dests| - 1]) + [(|dests|, dests[|dests| - 1])]
  {
    var n := |dests| - 1;
    var l := LayoutMap(dests[..n]) + [(|dests|, dests[n])];
    forall i | 0 <= i < |dests| ensures LayoutMap(dests)[i] == l[i] {
      if i < n {
        assert dests[..n][i] == dests[i];
      }
    }
  }

  /** The layout map holds a dest exactly when the layout does. */
  lemma LayoutMapHasValue(dests: seq<int>, d: int)
    ensures HasValue(LayoutMap(dests), d) <==> d in dests
  {
    if d in dests {
      var i :| 0 <= i < |dests| && dests[i] == d;
      assert LayoutMap(dests)[i].1 == d;
    }
  }

  /** `WiringPathForward`: the dest of `src`, once 26 entries are present.
      `find` on a missing key is undefined in C++. */
  function PathForward(m: Map<int>, src: int): (r: Result<int>)
    requires |m| == MaxWiringEntries ==> HasKey(m, src)
    ensures r.Err? <==> |m| != MaxWiringEntries
    ensures r.Err? ==> r.error == Thrown("Invalid wiring")
    ensures r.Ok? ==> exists i :: 0 <= i < |m| && m[i] == (src, r.value)
  {
    if |m| != MaxWiringEntries then Err(Thrown("Invalid wiring"))
    else Ok(Find(m, src).value)
  }

  /** The LAST key, in key order, whose dest is `dest`; `end` when none is. */
  function LastKeyWithValue(m: seq<(int, int)>, dest: int): int
    decreases |m|
  {
    if m == [] then ContactEnd
    else
      var n := |m| - 1;
      if m[n].1 == dest then m[n].0 else LastKeyWithValue(m[..n], dest)
  }

  /** No entry holds the dest: the result is `end`. */
  lemma {:induction false} LastKeyWithValueMissing(m: seq<(int, int)>, dest: int)
    requires !HasValue(m, dest)
    ensures LastKeyWithValue(m, dest) == ContactEnd
    decreases |m|
  {
    if m != [] {
      var n := |m| - 1;
      assert forall k :: 0 <= k < n ==> m[..n][k] == m[k];
      LastKeyWithValueMissing(m[..n], dest);
    }
  }

  /** The result is the key of the last entry holding the dest. */
  lemma {:induction false} LastKeyWithValueIsLast(m: seq<(int, int)>, dest: int, i: nat)
    requires i < |m| && m[i].1 == dest
    requires forall j :: i < j < |m| ==> m[j].1 != dest
    ensures LastKeyWithValue(m, dest) == m[i].0
    decreases |m|
  {
    var n := |m| - 1;
    if i < n {
      assert m[..n][i] == m[i];
      LastKeyWithValueIsLast(m[..n], dest, i);
    }
  }

  /** `WiringPathReverse`: the walk over every entry, a later match
      replacing an earlier one. */
  method PathReverse(m: Map<int>, dest: int) returns (r: Result<int>)
    ensures r == if |m| != MaxWiringEntries then Err(Thrown("Invalid wiring")) else Ok(LastKeyWithValue(m, dest))
  {
    if |m| != MaxWiringEntries {
      return Err(Thrown("Invalid wiring"));
    }
    var src := ContactEnd;
    var i := 0;
    while i < |m|
      invariant 0 <= i <= |m|
      invariant src == LastKeyWithValue(m[..i], dest)
    {
      if m[i].1 == dest {
        src := m[i].0;
      }
      assert m[..i + 1][..i] == m[..i];
      i := i + 1;
    }
    assert m[..|m|] == m;
    return Ok(src);
  }

  /** On a full map with no repeated dest, reverse undoes forward. */
  lemma ReverseUndoesForward(m: Map<int>, c: int)
    requires |m| == MaxWiringEntries && ValuesUnique(m) && HasKey(m, c)
    ensures PathForward(m, c).Ok? && LastKeyWithValue(m, PathForward(m, c).value) == c
  {
    var i :| 0 <= i < |m| && m[i].0 == c;
    assert PathForward(m, c) == Ok(m[i].1);
    LastKeyWithValueIsLast(m, m[i].1, i);
  }

  /** Forward undoes reverse on every dest the map holds. */
  lemma ForwardUndoesReverse(m: Map<int>, d: int)
    requires |m| == MaxWiringEntries && ValuesUnique(m) && HasValue(m, d)
    ensures HasKey(m, LastKeyWithValue(m, d)) && PathForward(m, LastKeyWithValue(m, d)) == Ok(d)
  {
    var i :| 0 <= i < |m| && m[i].1 == d;
    LastKeyWithValueIsLast(m, d, i);
  }

  class WireConfiguredDevice {
    var wiring: Map<int>

    /** At most 26 entries, no dest twice. */
    predicate Valid()
      reads this
    {
      |wiring| <= MaxWiringEntries && ValuesUnique(wiring)
    }

    /** The default constructor: no entries. */
    constructor ()
      ensures wiring == [] && Valid()
    {
      wiring := [];
    }

    /** `AddEntry(src, dest)`. */
    method AddEntry(src: int, dest: int) returns (o: Outcome)
      requires Valid()
      modifies this
      ensures o == AddEntryCheck(old(wiring), src, dest)
      ensures wiring == if o.Pass? then Insert(old(wiring), src, dest) else old(wiring)
      ensures Valid()
    {
      if |wiring| == MaxWiringEntries {
        return Fail(Thrown(TooMany));
      }
      if Find(wiring, src).Some? {
        return Fail(Thrown(DuplicateSource));
      }
      var i := 0;
      while i < |wiring|
        invariant 0 <= i <= |wiring|
        invariant forall j :: 0 <= j < i ==> wiring[j].1 != dest
      {
        if wiring[i].1 == dest {
          return Fail(Thrown(DuplicateDest));
        }
        i := i + 1;
      }
      AddEntryKeepsInjective(wiring, src, dest);
      wiring := Insert(wiring, src, dest);
      return Pass;
    }

    /** The constructor from a layout: 26 characters, then one entry per
        character. */
    static method Create(layout: string) returns (r: Result<WireConfiguredDevice>)
      ensures |layout| != MaxWiringEntries ==> r == Err(Thrown("Incorrect wiring entries!"))
      ensures |layout| == MaxWiringEntries ==>
        var b := Build(LayoutContacts(layout));
        (r.Err? <==> b.Err?) && (r.Err? ==> r.error == b.error) &&
        (r.Ok? ==> fresh(r.value) && r.value.wiring == b.value && r.value.Valid())
    {
      if |layout| != MaxWiringEntries {
        return Err(Thrown("Incorrect wiring entries!"));
      }
      var dests := LayoutContacts(layout);
      var d := new WireConfiguredDevice();
      var i := 0;
      while i < MaxWiringEntries
        invariant 0 <= i <= MaxWiringEntries
        invariant fresh(d) && d.Valid()
        invariant Build(dests[..i]) == Ok(d.wiring)
      {
        ghost var before := d.wiring;
        var o := d.AddEntry(i + 1, LayoutContact(layout[i]));
        BuildPrefixStep(dests, i, before);
        if o.Fail? {
          BuildStopsAtFailure(dests, i + 1);
          return Err(o.error);
        }
        i := i + 1;
      }
      assert dests[..i] == dests;
      return Ok(d);
    }

    /** `HasValidWiring`. */
    predicate HasValidWiring()
      reads this
    {
      |wiring| == MaxWiringEntries
    }

    /** `WiringPathForward(src)`. */
    function WiringPathForward(src: int): (r: Result<int>)
      reads this
      requires HasValidWiring() ==> HasKey(wiring, src)
      ensures r == PathForward(wiring, src)
    {
      PathForward(wiring, src)
    }

    /** `WiringPathReverse(dest)`. */
    method WiringPathReverse(dest: int) returns (r: Result<int>)
      ensures r == if !HasValidWiring() then Err(Thrown("Invalid wiring")) else Ok(LastKeyWithValue(wiring, dest))
    {
      r := PathReverse(wiring, dest);
    }
  }

  /** One more step of the constructor's loop on the map built so far. */
  lemma BuildPrefixStep(dests: seq<int>, i: nat, m: Map<int>)
    requires i < |dests| && Build(dests[..i]) == Ok(m)
    ensures var o := AddEntryCheck(m, i + 1, dests[i]);
      Build(dests[..i + 1]) == if o.Pass? then Ok(Insert(m, i + 1, dests[i])) else Err(o.error)
  {
    assert dests[..i + 1][..i] == dests[..i];
    BuildUnfold(dests[..i + 1], m);
  }

  /** Once the loop fails at step k, the whole build fails the same way. */
  lemma {:induction false} BuildStopsAtFailure(dests: seq<int>, k: nat)
    requires k <= |dests| && Build(dests[..k]).Err?
    ensures Build(dests) == Build(dests[..k])
    decreases |dests| - k
  {
    if k < |dests| {
      assert dests[..k + 1][..k] == dests[..k];
      BuildStopsAtFailure(dests, k + 1);
    } else {
      assert dests[..k] == dests;
    }
  }
}
