/** src/libEnigmaSimulator/RotorWireConfiguration.h: a rotor's wiring as a
    map from a position to a (src, dest) pair, built from a destination
    layout and a source layout, with an iterator over the entries. */
module RotorWireConfig {
  import opened Wrappers
  import opened CppContacts
  import opened LetterTables
  import opened CppMaps

  datatype WiringEntry = WiringEntry(src: int, dest: int)

  type Table = Map<WiringEntry>

  const DuplicateSrc: string := "Duplicate src wiring contact!"
  const DuplicateDest: string := "Duplicate destination wiring contact!"

  /** No entry before index i shares the src or the dest. */
  predicate NoClashBefore(w: seq<(int, WiringEntry)>, i: int, src: int, dest: int)
    requires 0 <= i <= |w|
  {
    forall j :: 0 <= j < i ==> w[j].1.src != src && w[j].1.dest != dest
  }

  /** What `AddEntry`'s walk over the entries decides: the first entry that
      shares the src or the dest fails the call, the src being compared first. */
  function AddEntryCheck(w: seq<(int, WiringEntry)>, src: int, dest: int): (o: Outcome)
    ensures o.Pass? <==> NoClashBefore(w, |w|, src, dest)
    ensures o == Fail(Thrown(DuplicateSrc)) <==>
      (exists i :: 0 <= i < |w| && w[i].1.src == src && NoClashBefore(w, i, src, dest))
    ensures o.Pass? || o == Fail(Thrown(DuplicateSrc)) || o == Fail(Thrown(DuplicateDest))
  {
    if w == [] then Pass
    else if w[0].1.src == src then
      assert NoClashBefore(w, 0, src, dest);
      Fail(Thrown(DuplicateSrc))
    else if w[0].1.dest == dest then
      assert forall i :: 0 < i < |w| ==> !NoClashBefore(w, i, src, dest);
      Fail(Thrown(DuplicateDest))
    else
      var o := AddEntryCheck(w[1..], src, dest);
      ShiftNoClash(w, src, dest);
      o
  }

  /** Past a first entry that clashes with neither, the clash search on the
      rest decides. */
  lemma ShiftNoClash(w: seq<(int, WiringEntry)>, src: int, dest: int)
    requires w != [] && w[0].1.src != src && w[0].1.dest != dest
    ensures forall i :: 1 <= i <= |w| ==> (NoClashBefore(w, i, src, dest) <==> NoClashBefore(w[1..], i - 1, src, dest))
    ensures (exists i :: 0 <= i < |w| && w[i].1.src == src && NoClashBefore(w, i, src, dest)) <==>
      (exists i :: 0 <= i < |w[1..]| && w[1..][i].1.src == src && NoClashBefore(w[1..], i, src, dest))
  {
    assert forall i :: 1 <= i < |w| ==> w[1..][i - 1] == w[i];
    forall i | 1 <= i <= |w|
      ensures NoClashBefore(w, i, src, dest) <==> NoClashBefore(w[1..], i - 1, src, dest)
    {
      if NoClashBefore(w[1..], i - 1, src, dest) {
        forall j | 0 <= j < i ensures w[j].1.src != src && w[j].1.dest != dest {
          if j > 0 {
            assert w[j] == w[1..][j - 1];
          }
        }
      }
    }
    if exists i :: 0 <= i < |w| && w[i].1.src == src && NoClashBefore(w, i, src, dest) {
      var i :| 0 <= i < |w| && w[i].1.src == src && NoClashBefore(w, i, src, dest);
      assert i > 0 && w[1..][i - 1] == w[i];
    }
    if exists i :: 0 <= i < |w[1..]| && w[1..][i].1.src == src && NoClashBefore(w[1..], i, src, dest) {
      var i :| 0 <= i < |w[1..]| && w[1..][i].1.src == src && NoClashBefore(w[1..], i, src, dest);
      assert w[i + 1] == w[1..][i];
    }
  }

  /** No src twice and no dest twice. */
  predicate ColumnsInjective(w: seq<(int, WiringEntry)>) {
    forall i, j :: 0 <= i < j < |w| ==> w[i].1.src != w[j].1.src && w[i].1.dest != w[j].1.dest
  }

  /** An entry that passes the duplicate checks keeps both columns injective. */
  lemma AddEntryKeepsColumnsInjective(w: Table, position: int, src: int, dest: int)
    requires ColumnsInjective(w) && AddEntryCheck(w, src, dest).Pass?
    ensures ColumnsInjective(Insert(w, position, WiringEntry(src, dest)))
  {
    var r := Insert(w, position, WiringEntry(src, dest));
    forall i, j | 0 <= i < j < |r| ensures r[i].1.src != r[j].1.src && r[i].1.dest != r[j].1.dest {
      assert r[i] in w || r[i] == (position, WiringEntry(src, dest));
      assert r[j] in w || r[j] == (position, WiringEntry(src, dest));
      assert r[i].0 < r[j].0;
    }
  }

  /** The table the constructor's loop builds when no check fails: entry i
      is keyed by position i + 1 and pairs the i-th src with the i-th dest. */
  function LayoutTable(srcs: seq<int>, dests: seq<int>): (t: Table)
    requires |srcs| == |dests|
    ensures |t| == |srcs|
    ensures forall i :: 0 <= i < |t| ==> t[i] == (i + 1, WiringEntry(srcs[i], dests[i]))
  {
    seq(|srcs|, i requires 0 <= i < |srcs| => (i + 1, WiringEntry(srcs[i], dests[i])))
  }

  /** The constructor's loop: `AddEntry(i + 1, srcs[i], dests[i])` for each
      i in turn, stopping at the first exception. */
  function Build(srcs: seq<int>, dests: seq<int>): Result<Table>
    requires |srcs| == |dests|
    decreases |srcs|
  {
    if srcs == [] then Ok([])
    else
      var n := |srcs| - 1;
      match Build(srcs[..n], dests[..n])
      case Err(e) => Err(e)
      case Ok(w) =>
        match AddEntryCheck(w, srcs[n], dests[n])
        case Fail(e) => Err(e)
        case Pass => Ok(Insert(w, n + 1, WiringEntry(srcs[n], dests[n])))
  }

  /** A new entry passes the duplicate checks against a layout table
      exactly when its src and its dest are new. */
  lemma LayoutTableCheck(srcs: seq<int>, dests: seq<int>, src: int, dest: int)
    requires |srcs| == |dests|
    ensures AddEntryCheck(LayoutTable(srcs, dests), src, dest).Pass? <==> src !in srcs && dest !in dests
  {
    var w := LayoutTable(srcs, dests);
    if src in srcs {
      var j :| 0 <= j < |srcs| && srcs[j] == src;
      assert w[j].1.src == src;
    }
    if dest in dests {
      var j :| 0 <= j < |dests| && dests[j] == dest;
      assert w[j].1.dest == dest;
    }
  }

  /** The layout table of a longer layout ends with the last entry. */
  lemma LayoutTableSnoc(srcs: seq<int>, dests: seq<int>)
    requires |srcs| == |dests| > 0
    ensures var n := |srcs| - 1;
      LayoutTable(srcs, dests) ==
      Insert(LayoutTable(srcs[..n], dests[..n]), n + 1, WiringEntry(srcs[n], dests[n]))
  {
    var n := |srcs| - 1;
    var w := LayoutTable(srcs[..n], dests[..n]);
    InsertPastLastKey(w, n + 1, WiringEntry(srcs[n], dests[n]));
    assert LayoutTable(srcs, dests) == w + [(n + 1, WiringEntry(srcs[n], dests[n]))];
  }

  /** One more loop step on a prefix that built its layout table. */
  lemma BuildStep(srcs: seq<int>, dests: seq<int>)
    requires |srcs| == |dests| > 0
    requires var n := |srcs| - 1; Build(srcs[..n], dests[..n]) == Ok(LayoutTable(srcs[..n], dests[..n]))
    requires var n := |srcs| - 1; Distinct(srcs[..n]) && Distinct(dests[..n])
    ensures Build(srcs, dests).Ok? <==> Distinct(srcs) && Distinct(dests)
    ensures Build(srcs, dests).Ok? ==> Build(srcs, dests).value == LayoutTable(srcs, dests)
  {
    var n := |srcs| - 1;
    var w := LayoutTable(srcs[..n], dests[..n]);
    var check := AddEntryCheck(w, srcs[n], dests[n]);
    assert Build(srcs, dests) ==
      if check.Pass? then Ok(Insert(w, n + 1, WiringEntry(srcs[n], dests[n]))) else Err(check.error);
    DistinctSnoc(srcs);
    DistinctSnoc(dests);
    LayoutTableCheck(srcs[..n], dests[..n], srcs[n], dests[n]);
    LayoutTableSnoc(srcs, dests);
  }

  /** The build succeeds exactly when no src and no dest repeats, and then
      yields the layout table. */
  lemma {:induction false} BuildIsLayoutTable(srcs: seq<int>, dests: seq<int>)
    requires |srcs| == |dests|
    ensures Build(srcs, dests).Ok? <==> Distinct(srcs) && Distinct(dests)
    ensures Build(srcs, dests).Ok? ==> Build(srcs, dests).value == LayoutTable(srcs, dests)
    decreases |srcs|
  {
    if srcs != [] {
      var n := |srcs| - 1;
      BuildIsLayoutTable(srcs[..n], dests[..n]);
      if Build(srcs[..n], dests[..n]).Ok? {
        BuildStep(srcs, dests);
      }
    }
  }

  /** `WiringPathForward`: the dest of the entry keyed by `src`, once 26
      entries are present. `find` on a missing key is undefined in C++. */
  function PathForward(w: Table, src: int): (r: Result<int>)
    requires |w| == MaxWiringEntries ==> HasKey(w, src)
    ensures r.Err? <==> |w| != MaxWiringEntries
    ensures r.Err? ==> r.error == Thrown("Invalid wiring")
    ensures r.Ok? ==> exists i :: 0 <= i < |w| && w[i] == (src, WiringEntry(w[i].1.src, r.value))
  {
    if |w| != MaxWiringEntries then Err(Thrown("Invalid wiring"))
    else Ok(Find(w, src).value.dest)
  }

  /** The src of the LAST entry, in key order, whose dest is `dest`; `end`
      when none is. */
  function LastSrcWithDest(w: seq<(int, WiringEntry)>, dest: int): int
    decreases |w|
  {
    if w == [] then ContactEnd
    else
      var n := |w| - 1;
      if w[n].1.dest == dest then w[n].1.src else LastSrcWithDest(w[..n], dest)
  }

  /** No entry has the dest: the result is `end`. */
  lemma {:induction false} LastSrcWithDestMissing(w: seq<(int, WiringEntry)>, dest: int)
    requires forall i :: 0 <= i < |w| ==> w[i].1.dest != dest
    ensures LastSrcWithDest(w, dest) == ContactEnd
    decreases |w|
  {
    if w != [] {
      var n := |w| - 1;
      assert forall k :: 0 <= k < n ==> w[..n][k] == w[k];
      LastSrcWithDestMissing(w[..n], dest);
    }
  }

  /** The result is the src of the last entry with the dest. */
  lemma {:induction false} LastSrcWithDestIsLast(w: seq<(int, WiringEntry)>, dest: int, i: nat)
    requires i < |w| && w[i].1.dest == dest
    requires forall j :: i < j < |w| ==> w[j].1.dest != dest
    ensures LastSrcWithDest(w, dest) == w[i].1.src
    decreases |w|
  {
    var n := |w| - 1;
    if i < n {
      assert w[..n][i] == w[i];
      LastSrcWithDestIsLast(w[..n], dest, i);
    }
  }

  /** `WiringPathReverse`: the walk over every entry, a later match
      replacing an earlier one. */
  method PathReverse(w: Table, dest: int) returns (r: Result<int>)
    ensures r == if |w| != MaxWiringEntries then Err(Thrown("Invalid wiring")) else Ok(LastSrcWithDest(w, dest))
  {
    if |w| != MaxWiringEntries {
      return Err(Thrown("Invalid wiring"));
    }
    var src := ContactEnd;
    var i := 0;
    while i < |w|
      invariant 0 <= i <= |w|
      invariant src == LastSrcWithDest(w[..i], dest)
    {
      if w[i].1.dest == dest {
        src := w[i].1.src;
      }
      assert w[..i + 1][..i] == w[..i];
      i := i + 1;
    }
    assert w[..|w|] == w;
    return Ok(src);
  }

  /** The key following `k` in key order, None past the last. */
  function KeyAfter(w: seq<(int, WiringEntry)>, k: int): Option<int> {
    if w == [] then None
    else if w[0].0 > k then Some(w[0].0)
    else KeyAfter(w[1..], k)
  }

  /** Stepping the iterator from an entry reaches the next entry in key
      order, and from the last entry reaches `end()`. */
  lemma {:induction false} KeyAfterWalks(w: Table, i: nat)
    requires i < |w|
    ensures KeyAfter(w, w[i].0) == if i + 1 < |w| then Some(w[i + 1].0) else None
    decreases |w|
  {
    if i > 0 {
      KeyAfterWalks(w[1..], i - 1);
    } else if |w| > 1 {
      assert KeyAfter(w, w[0].0) == KeyAfter(w[1..], w[0].0);
    } else {
      assert KeyAfter(w, w[0].0) == KeyAfter(w[1..], w[0].0);
    }
  }

  /** The entries as a source layout string, `RotorContactStr` of each src. */
  function SrcPathString(w: seq<(int, WiringEntry)>): (s: string)
    requires forall i :: 0 <= i < |w| ==> IsLetterContact(w[i].1.src)
    ensures |s| == |w|
  {
    seq(|w|, i requires 0 <= i < |w| => RotorContactStr(w[i].1.src))
  }

  /** The entries as a destination layout string. */
  function DestPathString(w: seq<(int, WiringEntry)>): (s: string)
    requires forall i :: 0 <= i < |w| ==> IsLetterContact(w[i].1.dest)
    ensures |s| == |w|
  {
    seq(|w|, i requires 0 <= i < |w| => RotorContactStr(w[i].1.dest))
  }

  /** The path strings of a table built from upper-case layouts give back
      the layouts. */
  lemma PathStringsRoundTrip(srcLayout: string, destLayout: string)
    requires |srcLayout| == |destLayout|
    requires forall i :: 0 <= i < |srcLayout| ==> 'A' <= srcLayout[i] <= 'Z' && 'A' <= destLayout[i] <= 'Z'
    ensures var t := LayoutTable(LayoutContacts(srcLayout), LayoutContacts(destLayout));
      SrcPathString(t) == srcLayout && DestPathString(t) == destLayout
  {
    var t := LayoutTable(LayoutContacts(srcLayout), LayoutContacts(destLayout));
    forall i | 0 <= i < |srcLayout|
      ensures RotorContactStr(t[i].1.src) == srcLayout[i] && RotorContactStr(t[i].1.dest) == destLayout[i]
    {
      LayoutLetterRoundTrip(srcLayout[i]);
      LayoutLetterRoundTrip(destLayout[i]);
    }
  }

  /** With the default source layout and a destination layout of 26 distinct
      letters, reverse undoes forward on every contact. */
  lemma ReverseUndoesForward(destLayout: string, c: int)
    requires IsLetterLayout(destLayout) && IsLetterContact(c)
    ensures var t := LayoutTable(LayoutContacts(DefaultSrcLayout), LayoutContacts(destLayout));
      HasKey(t, c) && PathForward(t, c).Ok? && LastSrcWithDest(t, PathForward(t, c).value) == c
  {
    DefaultSrcLayoutIsIdentity();
    var srcs := LayoutContacts(DefaultSrcLayout);
    var dests := LayoutContacts(destLayout);
    var t := LayoutTable(srcs, dests);
    assert t[c - 1].0 == c;
    var d := PathForward(t, c).value;
    assert d == dests[c - 1];
    forall j | c - 1 < j < |t| ensures t[j].1.dest != d {
      assert destLayout[j] != destLayout[c - 1];
    }    LastSrcWithDestIsLast(t, d, c - 1);
  }

  class RotorWireConfiguration {
    var wiring: Table
    /** `wiring_it_`: the key of the entry it designates, None for `end()`. */
    var cursor: Option<int>

    /** The iterator designates a present entry or `end()`. */
    predicate Valid()
      reads this
    {
      cursor.Some? ==> HasKey(wiring, cursor.value)
    }

    /** The default constructor: no entries. Its iterator is left
        unspecified by C++; the model puts it at `end()`. */
    constructor ()
      ensures wiring == [] && cursor == None && Valid()
    {
      wiring := [];
      cursor := None;
    }

    /** `AddEntry(position, src, dest)`: rejects a src or a dest already in
        use, and otherwise inserts the entry. */
    method AddEntry(position: int, src: int, dest: int) returns (o: Outcome)
      modifies this
      ensures o == AddEntryCheck(old(wiring), src, dest)
      ensures wiring == if o.Pass? then Insert(old(wiring), position, WiringEntry(src, dest)) else old(wiring)
      ensures cursor == old(cursor)
    {
      var i := 0;
      while i < |wiring|
        invariant 0 <= i <= |wiring|
        invariant AddEntryCheck(wiring, src, dest) == AddEntryCheck(wiring[i..], src, dest)
      {
        if wiring[i].1.src == src {
          return Fail(Thrown(DuplicateSrc));
        }
        if wiring[i].1.dest == dest {
          return Fail(Thrown(DuplicateDest));
        }
        assert wiring[i..][1..] == wiring[i + 1..];
        i := i + 1;
      }
      wiring := Insert(wiring, position, WiringEntry(src, dest));
      return Pass;
    }

    /** The constructor from a destination and a source layout: both must
        have 26 characters, then the entries are added in order. */
    static method Create(destLayout: string, srcLayout: string) returns (r: Result<RotorWireConfiguration>)
      ensures |destLayout| != MaxWiringEntries ==> r == Err(Thrown("Incorrect destination wiring entries!"))
      ensures |destLayout| == MaxWiringEntries && |srcLayout| != MaxWiringEntries ==>
        r == Err(Thrown("Incorrect source wiring entries!"))
      ensures |destLayout| == |srcLayout| == MaxWiringEntries ==>
        var b := Build(LayoutContacts(srcLayout), LayoutContacts(destLayout));
        (r.Err? <==> b.Err?) && (r.Err? ==> r.error == b.error) &&
        (r.Ok? ==> fresh(r.value) && r.value.wiring == b.value && r.value.cursor == None && r.value.Valid())
    {
      if |destLayout| != MaxWiringEntries {
        return Err(Thrown("Incorrect destination wiring entries!"));
      }
      if |srcLayout| != MaxWiringEntries {
        return Err(Thrown("Incorrect source wiring entries!"));
      }
      var srcs := LayoutContacts(srcLayout);
      var dests := LayoutContacts(destLayout);
      var c := new RotorWireConfiguration();
      var i := 0;
      while i < |srcLayout|
        invariant 0 <= i <= |srcLayout|
        invariant fresh(c) && c.cursor == None
        invariant Build(srcs[..i], dests[..i]) == Ok(c.wiring)
      {
        assert srcs[..i + 1][..i] == srcs[..i] && dests[..i + 1][..i] == dests[..i];
        var o := c.AddEntry(i + 1, LayoutContact(srcLayout[i]), LayoutContact(destLayout[i]));
        if o.Fail? {
          assert Build(srcs[..i + 1], dests[..i + 1]) == Err(o.error);
          BuildStopsAtFailure(srcs, dests, i + 1);
          return Err(o.error);
        }
        i := i + 1;
      }
      assert srcs[..i] == srcs && dests[..i] == dests;
      return Ok(c);
    }

    /** `HasValidWiring`. */
    predicate HasValidWiring()
      reads this
    {
      |wiring| == MaxWiringEntries
    }

    /** `WiringPathForward(src)`. */
    function WiringPathForward(src: int): (r: Result<int>)
      reads this
      requires HasValidWiring() ==> HasKey(wiring, src)
      ensures r == PathForward(wiring, src)
    {
      PathForward(wiring, src)
    }

    /** `WiringPathReverse(dest)`. */
    method WiringPathReverse(dest: int) returns (r: Result<int>)
      ensures r == if !HasValidWiring() then Err(Thrown("Invalid wiring")) else Ok(LastSrcWithDest(wiring, dest))
    {
      r := PathReverse(wiring, dest);
    }

    /** `FirstWiringPath`: the iterator goes to the first entry. */
    method FirstWiringPath()
      modifies this
      ensures wiring == old(wiring) && Valid()
      ensures cursor == if wiring == [] then None else Some(wiring[0].0)
    {
      cursor := if wiring == [] then None else Some(wiring[0].0);
    }

    /** `NextWiringPath`: the iterator steps to the next entry; at `end()`
        it stays there. */
    method NextWiringPath()
      requires Valid()
      modifies this
      ensures wiring == old(wiring) && Valid()
      ensures old(cursor) == None ==> cursor == None
      ensures forall i :: 0 <= i < |wiring| && old(cursor) == Some(wiring[i].0) ==>
        cursor == if i + 1 < |wiring| then Some(wiring[i + 1].0) else None
    {
      if cursor.Some? {
        var i :| 0 <= i < |wiring| && wiring[i].0 == cursor.value;
        KeyAfterWalks(wiring, i);
        cursor := KeyAfter(wiring, cursor.value);
      }
    }

    /** `CurrentWiringPath`: the entry the iterator designates, {end, end}
        at `end()`. */
    function CurrentWiringPath(): (e: WiringEntry)
      reads this
      requires Valid()
      ensures cursor == None ==> e == WiringEntry(ContactEnd, ContactEnd)
      ensures forall i :: 0 <= i < |wiring| && cursor == Some(wiring[i].0) ==> e == wiring[i].1
    {
      match cursor
      case None => WiringEntry(ContactEnd, ContactEnd)
      case Some(k) => Find(wiring, k).value
    }

    /** `GetSrcWiringPathStr`: one letter per entry, in key order. */
    method GetSrcWiringPathStr() returns (s: string)
      requires forall i :: 0 <= i < |wiring| ==> IsLetterContact(wiring[i].1.src)
      ensures s == SrcPathString(wiring)
    {
      s := "";
      var i := 0;
      while i < |wiring|
        invariant 0 <= i <= |wiring|
        invariant s == SrcPathString(wiring[..i])
      {
        s := s + [RotorContactStr(wiring[i].1.src)];
        i := i + 1;
      }
      assert wiring[..i] == wiring;
    }

    /** `GetDestWiringPathStr`: one letter per entry, in key order. */
    method GetDestWiringPathStr() returns (s: string)
      requires forall i :: 0 <= i < |wiring| ==> IsLetterContact(wiring[i].1.dest)
      ensures s == DestPathString(wiring)
    {
      s := "";
      var i := 0;
      while i < |wiring|
        invariant 0 <= i <= |wiring|
        invariant s == DestPathString(wiring[..i])
      {
        s := s + [RotorContactStr(wiring[i].1.dest)];
        i := i + 1;
      }
      assert wiring[..i] == wiring;
    }
  }

  /** Once the loop fails at step k, the whole build fails the same way. */
  lemma {:induction false} BuildStopsAtFailure(srcs: seq<int>, dests: seq<int>, k: nat)
    requires |srcs| == |dests| && k <= |srcs|
    requires Build(srcs[..k], dests[..k]).Err?
    ensures Build(srcs, dests) == Build(srcs[..k], dests[..k])
    decreases |srcs| - k
  {
    if k < |srcs| {
      var n := |srcs| - 1;
      assert srcs[..k + 1][..k] == srcs[..k] && dests[..k + 1][..k] == dests[..k];
      BuildStopsAtFailure(srcs, dests, k + 1);
    } else {
      assert srcs[..k] == srcs && dests[..k] == dests;
    }
  }
}
