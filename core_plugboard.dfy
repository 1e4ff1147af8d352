/** src/Core/plugboard.py: the plugboard of the src/Core machine generation,
    a one-direction dictionary of plugs on contacts 1..26. Its range guard
    is written `not (x >= 1) and (x <= NO_OF_ROTOR_CONTACTS)`, which by
    Python's precedence rejects only values below 1. Its reverse lookup
    `self.wiring.keys()[self.wiring.values().index(src)]` is the Python 2
    idiom: under Python 3 a dictionary's values view has no `index`, so
    looking up the destination end of a plug raises AttributeError. */
module CorePlugboard {
  import opened Wrappers
  import opened PyDicts
  import opened PlugDicts
  import opened OneBased

  /** The guard of `set_plug` and `get_plug` as written. */
  function RejectsPosition(x: int): (reject: bool)
    ensures reject <==> x < 1
  {
    !(x >= 1) && (x <= NoOfRotorContacts)
  }

  /** The guard lets 27 through, where the unit test expects a rejection. */
  lemma RejectsPositionAdmitsPastZ()
    ensures !RejectsPosition(NoOfRotorContacts + 1)
    ensures exists x :: !RejectsPosition(x) && !(1 <= x <= NoOfRotorContacts)
  {
    assert !RejectsPosition(27) && !(1 <= 27 <= NoOfRotorContacts);
  }

  /** The guard as intended: every value outside 1..26 is rejected. */
  function RejectsPositionIntended(x: int): (reject: bool)
    ensures reject <==> x < 1 || x > NoOfRotorContacts
  {
    !(1 <= x <= NoOfRotorContacts)
  }

  /** The intended guard rejects what the written one does, and 27 too. */
  lemma RejectsPositionIntendedIsStricter(x: int)
    ensures RejectsPosition(x) ==> RejectsPositionIntended(x)
    ensures RejectsPositionIntended(NoOfRotorContacts + 1) && !RejectsPosition(NoOfRotorContacts + 1)
  {
  }

  class Plugboard {
    var wiring: Dict

    /** Every stored contact passed the guard, and no contact is in two plugs. */
    ghost predicate Valid()
      reads this
    {
      PlugsDisjoint(wiring) &&
      forall i :: 0 <= i < |wiring| ==> wiring[i].0 >= 1 && wiring[i].1 >= 1
    }

    /** `__init__`: no plugs. */
    constructor ()
      ensures Valid() && wiring == []
    {
      wiring := [];
    }

    /** `set_plug(src, dest)`: every check precedes the single write, so a
        rejected call leaves the dictionary as it was. */
    method SetPlug(src: int, dest: int) returns (o: Outcome)
      requires Valid()
      modifies this
      ensures Valid()
      ensures o == if RejectsPosition(src) then Fail(ValueError("Invalid source plug position"))
                   else if RejectsPosition(dest) then Fail(ValueError("Invalid destination plug position"))
                   else if InUse(old(wiring), src) then Fail(ValueError(InUseMessage("Plugboard Source", src, dest)))
                   else if InUse(old(wiring), dest) then Fail(ValueError(InUseMessage("Plugboard Destination", src, dest)))
                   else Pass
      ensures o.Fail? ==> wiring == old(wiring)
      ensures o.Pass? ==> wiring == old(wiring) + [(src, dest)]
      ensures o.Pass? ==> GetPlug(src) == Ok(dest)
      ensures o.Pass? && src != dest ==> GetPlug(dest) == Err(AttributeError)
      ensures o.Pass? ==> GetPlugIntended(src) == Ok(dest) && GetPlugIntended(dest) == Ok(src)
    {
      if RejectsPosition(src) {
        return Fail(ValueError("Invalid source plug position"));
      }
      if RejectsPosition(dest) {
        return Fail(ValueError("Invalid destination plug position"));
      }
      if HasKey(wiring, src) || HasValue(wiring, src) {
        return Fail(ValueError(InUseMessage("Plugboard Source", src, dest)));
      }
      if HasKey(wiring, dest) || HasValue(wiring, dest) {
        return Fail(ValueError(InUseMessage("Plugboard Destination", src, dest)));
      }
      AddPlug(wiring, src, dest);
      wiring := Put(wiring, src, dest);
      LookupOfPlug(wiring, |wiring| - 1);
      return Pass;
    }

    /** `get_plug(src)` as written: the value of a key, AttributeError for
        a contact that is only a value (the Python 2 reverse lookup), or
        the contact itself. */
    function GetPlug(src: int): (r: Result<int>)
      reads this
      ensures r.Err? <==> RejectsPosition(src) || (!HasKey(wiring, src) && HasValue(wiring, src))
      ensures RejectsPosition(src) ==> r == Err(ValueError("Invalid source plug position"))
      ensures !RejectsPosition(src) && r.Err? ==> r.error == AttributeError
      ensures r.Ok? && HasKey(wiring, src) ==> Some(r.value) == Get(wiring, src)
      ensures r.Ok? && !InUse(wiring, src) ==> r.value == src
    {
      if RejectsPosition(src) then Err(ValueError("Invalid source plug position"))
      else if HasKey(wiring, src) then Ok(Get(wiring, src).value)
      else if HasValue(wiring, src) then Err(AttributeError)
      else Ok(src)
    }

    /** `get_plug(src)` as intended: the other end of a plug, found by key
        or by value, or the contact itself. */
    function GetPlugIntended(src: int): (r: Result<int>)
      reads this
      ensures r.Err? <==> RejectsPosition(src)
      ensures r.Err? ==> r.error == ValueError("Invalid source plug position")
      ensures r.Ok? && !InUse(wiring, src) ==> r.value == src
    {
      if RejectsPosition(src) then Err(ValueError("Invalid source plug position"))
      else Ok(Lookup(wiring, src))
    }
  }

  /** Looking up the destination end of a stored plug raises, unless the
      plug joins a contact to itself: that contact is a value of the
      dictionary and, the plugs being disjoint, no key. */
  lemma GetPlugRaisesOnDestination(p: Plugboard, i: nat)
    requires p.Valid() && i < |p.wiring| && p.wiring[i].0 != p.wiring[i].1
    ensures p.GetPlug(p.wiring[i].1) == Err(AttributeError)
  {
    assert HasValue(p.wiring, p.wiring[i].1);
  }

  /** Plugging is symmetric under the intended lookup: whatever a contact
      is plugged to is plugged back to it. */
  lemma GetPlugIntendedSymmetric(p: Plugboard, x: int)
    requires p.Valid() && p.GetPlugIntended(x).Ok?
    ensures p.GetPlugIntended(p.GetPlugIntended(x).value) == Ok(x)
  {
    LookupInvolution(p.wiring, x);
    if HasKey(p.wiring, x) {
      var i :| 0 <= i < |p.wiring| && p.wiring[i].0 == x;
      LookupOfPlug(p.wiring, i);
    } else if HasValue(p.wiring, x) {
      var i :| 0 <= i < |p.wiring| && p.wiring[i].1 == x;
      LookupOfPlug(p.wiring, i);
    }
  }
}
