/** src/libEnigmaSimulator/Plugboard.cpp: a plugboard kept as a map from
    each contact to the contact plugged into it, `end` meaning no plug. */
module CppPlugboard {
  import opened Wrappers
  import opened CppContacts
  import opened CppMaps

  const Invalid: string := "Source / destination invalid"
  const Same: string := "Source and destination the same"
  const InUse: string := "Source / destination in use"

  /** `entries_[k]` read through `operator[]`: a missing key is first
      inserted with a value-initialised (zero) contact. */
  function Subscript(m: Map<int>, k: int): (r: (Map<int>, int))
    ensures r.0 == Insert(m, k, 0)
    ensures r.1 == if HasKey(m, k) then Find(m, k).value else 0
    ensures Find(r.0, k) == Some(r.1)
  {
    FindInsert(m, k, 0, k);
    var m' := Insert(m, k, 0);
    (m', Find(m', k).value)
  }

  /** The map `Reset` builds: every contact A..Z unplugged. */
  function ResetMap(): (m: Map<int>)
    ensures |m| == MaxWiringEntries
    ensures forall i :: 0 <= i < |m| ==> m[i] == (i + 1, ContactEnd)
  {
    seq(MaxWiringEntries, i requires 0 <= i < MaxWiringEntries => (i + 1, ContactEnd))
  }

  /** Every contact A..Z has an entry. */
  predicate HasEveryLetter(m: Map<int>) {
    forall c :: 1 <= c <= MaxWiringEntries ==> HasKey(m, c)
  }

  /** `insert` never removes a key. */
  lemma InsertKeepsKeys(m: Map<int>, k: int, v: int)
    ensures forall c :: HasKey(m, c) ==> HasKey(Insert(m, k, v), c)
  {
    forall c | HasKey(m, c) ensures HasKey(Insert(m, k, v), c) {
      FindInsert(m, k, v, c);
    }
  }

  /** Assignment never removes a key. */
  lemma AssignKeepsKeys(m: Map<int>, k: int, v: int)
    ensures forall c :: HasKey(m, c) ==> HasKey(Assign(m, k, v), c)
  {
    forall c | HasKey(m, c) ensures HasKey(Assign(m, k, v), c) {
      FindAssign(m, k, v, c);
    }
  }

  /** After a reset every contact reads as unplugged. */
  lemma ResetUnplugsEveryLetter(c: int)
    requires IsLetterContact(c)
    ensures HasEveryLetter(ResetMap()) && Find(ResetMap(), c) == Some(ContactEnd)
  {
    var m := ResetMap();
    forall x | IsLetterContact(x) ensures HasKey(m, x) {
      assert m[x - 1].0 == x;
    }
    assert m[c - 1].0 == c;
  }

  /** The three checks of `SetPlug` on letter contacts, when every letter
      has an entry: the operator[] reads add nothing. */
  function Checks(m: Map<int>, src: int, dest: int): (o: Outcome)
    requires HasEveryLetter(m) && IsLetterContact(src) && IsLetterContact(dest)
    ensures o.Pass? <==> src != dest && Find(m, src) == Some(ContactEnd) && Find(m, dest) == Some(ContactEnd)
  {
    if src == dest then Fail(Thrown(Same))
    else if Find(m, src).value != ContactEnd || Find(m, dest).value != ContactEnd then Fail(Thrown(InUse))
    else Pass
  }

  /** Plugged letters are paired: if a letter c is plugged into a letter d,
      then d is plugged into c. */
  ghost predicate Paired(m: Map<int>) {
    forall c, d :: IsLetterContact(c) && Find(m, c) == Some(d) && IsLetterContact(d) ==> Find(m, d) == Some(c)
  }

  /** The reset map is paired, vacuously. */
  lemma ResetMapPaired()
    ensures Paired(ResetMap())
  {
  }

  class Plugboard {
    var entries: Map<int>

    /** The constructor calls `Reset`. */
    constructor ()
      ensures entries == ResetMap() && HasEveryLetter(entries)
    {
      ResetUnplugsEveryLetter(1);
      entries := [];
      new;
      Reset();
    }

    /** `Reset`: clears the map, then inserts (c, end) for c = A .. Z. */
    method Reset()
      modifies this
      ensures entries == ResetMap()
    {
      entries := [];
      var contact := 1;
      while contact != ContactEnd
        invariant 1 <= contact <= ContactEnd
        invariant entries == ResetMap()[..contact - 1]
      {
        InsertPastLastKey(entries, contact, ContactEnd);
        entries := Insert(entries, contact, ContactEnd);
        assert ResetMap()[..contact] == ResetMap()[..contact - 1] + [(contact, ContactEnd)];
        contact := contact + 1;
      }
      assert ResetMap()[..MaxWiringEntries] == ResetMap();
    }

    /** `SetPlug(src, dest)` as written: after its checks it `insert`s both
        directions, which leaves keys already present untouched. */
    method SetPlug(src: int, dest: int) returns (o: Outcome)
      modifies this
      ensures src == ContactEnd || dest == ContactEnd ==> o == Fail(Thrown(Invalid)) && entries == old(entries)
      ensures src != ContactEnd && dest != ContactEnd && src == dest ==> o == Fail(Thrown(Same)) && entries == old(entries)
      ensures src != ContactEnd && dest != ContactEnd && src != dest ==>
        var (m1, a) := Subscript(old(entries), src);
        var (m2, b) := Subscript(m1, dest);
        if a != ContactEnd then o == Fail(Thrown(InUse)) && entries == m1
        else if b != ContactEnd then o == Fail(Thrown(InUse)) && entries == m2
        else o == Pass && entries == Insert(Insert(m2, src, dest), dest, src)
      ensures HasEveryLetter(old(entries)) ==> HasEveryLetter(entries)
    {
      if src == ContactEnd || dest == ContactEnd {
        return Fail(Thrown(Invalid));
      }
      if src == dest {
        return Fail(Thrown(Same));
      }
      var a;
      InsertKeepsKeys(entries, src, 0);
      entries, a := Subscript(entries, src).0, Subscript(entries, src).1;
      if a != ContactEnd {
        return Fail(Thrown(InUse));
      }
      var b;
      InsertKeepsKeys(entries, dest, 0);
      entries, b := Subscript(entries, dest).0, Subscript(entries, dest).1;
      if b != ContactEnd {
        return Fail(Thrown(InUse));
      }
      InsertKeepsKeys(entries, src, dest);
      entries := Insert(entries, src, dest);
      InsertKeepsKeys(entries, dest, src);
      entries := Insert(entries, dest, src);
      return Pass;
    }

    /** `SetPlug` with the inserts replaced by assignments, so that the
        plug is actually recorded. */
    method SetPlugAssigning(src: int, dest: int) returns (o: Outcome)
      modifies this
      ensures src == ContactEnd || dest == ContactEnd ==> o == Fail(Thrown(Invalid)) && entries == old(entries)
      ensures src != ContactEnd && dest != ContactEnd && src == dest ==> o == Fail(Thrown(Same)) && entries == old(entries)
      ensures src != ContactEnd && dest != ContactEnd && src != dest ==>
        var (m1, a) := Subscript(old(entries), src);
        var (m2, b) := Subscript(m1, dest);
        if a != ContactEnd then o == Fail(Thrown(InUse)) && entries == m1
        else if b != ContactEnd then o == Fail(Thrown(InUse)) && entries == m2
        else o == Pass && entries == Assign(Assign(m2, src, dest), dest, src)
      ensures HasEveryLetter(old(entries)) ==> HasEveryLetter(entries)
    {
      if src == ContactEnd || dest == ContactEnd {
        return Fail(Thrown(Invalid));
      }
      if src == dest {
        return Fail(Thrown(Same));
      }
      var a;
      InsertKeepsKeys(entries, src, 0);
      entries, a := Subscript(entries, src).0, Subscript(entries, src).1;
      if a != ContactEnd {
        return Fail(Thrown(InUse));
      }
      var b;
      InsertKeepsKeys(entries, dest, 0);
      entries, b := Subscript(entries, dest).0, Subscript(entries, dest).1;
      if b != ContactEnd {
        return Fail(Thrown(InUse));
      }
      AssignKeepsKeys(entries, src, dest);
      entries := Assign(entries, src, dest);
      AssignKeepsKeys(entries, dest, src);
      entries := Assign(entries, dest, src);
      return Pass;
    }

    /** `GetPlug(src)`: the raw entry, through `operator[]`. */
    method GetPlug(src: int) returns (r: int)
      modifies this
      ensures (entries, r) == Subscript(old(entries), src)
      ensures HasEveryLetter(old(entries)) ==> HasEveryLetter(entries)
    {
      InsertKeepsKeys(entries, src, 0);
      entries, r := Subscript(entries, src).0, Subscript(entries, src).1;
    }
  }

  /** As written, on a board where every letter has an entry, `SetPlug` on
      two letters ends with the map it started from, whatever its outcome;
      its outcome is that of the three checks. */
  lemma SetPlugLeavesEntriesUnchanged(m: Map<int>, src: int, dest: int)
    requires HasEveryLetter(m) && IsLetterContact(src) && IsLetterContact(dest) && src != dest
    ensures var (m1, a) := Subscript(m, src);
      var (m2, b) := Subscript(m1, dest);
      m1 == m && m2 == m && (Checks(m, src, dest).Pass? <==> a == ContactEnd && b == ContactEnd) &&
      Insert(Insert(m2, src, dest), dest, src) == m
  {
    InsertExistingKey(m, src, 0);
    InsertExistingKey(m, dest, 0);
    InsertExistingKey(m, src, dest);
    InsertExistingKey(m, dest, src);
  }

  /** So after a reset, plugging A into Z succeeds and yet A still reads as
      unplugged. */
  lemma PlugAToZIsLost()
    ensures var (m1, a) := Subscript(ResetMap(), 1);
      var (m2, b) := Subscript(m1, 26);
      a == ContactEnd && b == ContactEnd &&
      Find(Insert(Insert(m2, 1, 26), 26, 1), 1) == Some(ContactEnd)
  {
    ResetUnplugsEveryLetter(1);
    ResetUnplugsEveryLetter(26);
    SetPlugLeavesEntriesUnchanged(ResetMap(), 1, 26);
  }

  /** Reading a contact after assigning both ends of a plug. */
  lemma FindAfterAssigns(m: Map<int>, src: int, dest: int, c: int)
    ensures Find(Assign(Assign(m, src, dest), dest, src), c) ==
      if c == dest then Some(src) else if c == src then Some(dest) else Find(m, c)
  {
    FindAssign(Assign(m, src, dest), dest, src, c);
    FindAssign(m, src, dest, c);
  }

  /** With assignments, a plug that passes the checks on a paired board
      reads back from both ends, leaves every other contact as it was and
      keeps the board paired. */
  lemma AssigningKeepsPlugsPaired(m: Map<int>, src: int, dest: int)
    requires HasEveryLetter(m) && Paired(m) && IsLetterContact(src) && IsLetterContact(dest)
    requires Checks(m, src, dest).Pass?
    ensures var m' := Assign(Assign(m, src, dest), dest, src);
      Find(m', src) == Some(dest) && Find(m', dest) == Some(src) &&
      (forall c :: c != src && c != dest ==> Find(m', c) == Find(m, c)) &&
      Paired(m')
  {
    var m' := Assign(Assign(m, src, dest), dest, src);
    FindAfterAssigns(m, src, dest, src);
    FindAfterAssigns(m, src, dest, dest);
    forall c | c != src && c != dest ensures Find(m', c) == Find(m, c) {
      FindAfterAssigns(m, src, dest, c);
    }
    forall c, d | IsLetterContact(c) && Find(m', c) == Some(d) && IsLetterContact(d)
      ensures Find(m', d) == Some(c)
    {
      FindAfterAssigns(m, src, dest, c);
      FindAfterAssigns(m, src, dest, d);
      if c != src && c != dest {
        // d was plugged into c before, so neither end of the new plug is d
        assert Find(m, c) == Some(d) && Find(m, d) == Some(c);
      }
    }
  }
}
