/** src/Core/Plugboard_.py: the plugboard of the machine in
    src/Core/enigma_machine.py, a one-direction dictionary of plugs whose
    range check `__ValidatePosition` accepts exactly the contacts 1..26. */
module LegacyPlugboard {
  import opened Wrappers
  import opened PyDicts
  import opened PlugDicts
  import opened OneBased

  /** `__ValidatePosition(plug)`. */
  function ValidatePosition(plug: int): (ok: bool)
    ensures ok <==> 1 <= plug <= NoOfRotorContacts
  {
    plug >= 1 && plug <= NoOfRotorContacts
  }

  class Plugboard {
    var plugs: Dict

    /** Every stored contact is in 1..26, and no contact is in two plugs. */
    ghost predicate Valid()
      reads this
    {
      PlugsDisjoint(plugs) &&
      forall i :: 0 <= i < |plugs| ==> ValidatePosition(plugs[i].0) && ValidatePosition(plugs[i].1)
    }

    /** `__init__`: no plugs. */
    constructor ()
      ensures Valid() && plugs == []
    {
      plugs := [];
    }

    /** `SetPlug(src, dest)`: every check precedes the single write, so a
        rejected call leaves the dictionary as it was. */
    method SetPlug(src: int, dest: int) returns (o: Outcome)
      requires Valid()
      modifies this
      ensures Valid()
      ensures o == if !ValidatePosition(src) then Fail(ValueError("Invalid source plug position"))
                   else if !ValidatePosition(dest) then Fail(ValueError("Invalid destination plug position"))
                   else if InUse(old(plugs), src) then Fail(ValueError(InUseMessage("Source of plugboard", src, dest)))
                   else if InUse(old(plugs), dest) then Fail(ValueError(InUseMessage("Destination of plugboard", src, dest)))
                   else Pass
      ensures o.Fail? ==> plugs == old(plugs)
      ensures o.Pass? ==> plugs == old(plugs) + [(src, dest)]
      ensures o.Pass? ==> GetPlug(src) == Ok(dest) && GetPlug(dest) == Ok(src)
    {
      if !ValidatePosition(src) {
        return Fail(ValueError("Invalid source plug position"));
      }
      if !ValidatePosition(dest) {
        return Fail(ValueError("Invalid destination plug position"));
      }
      if HasKey(plugs, src) || HasValue(plugs, src) {
        return Fail(ValueError(InUseMessage("Source of plugboard", src, dest)));
      }
      if HasKey(plugs, dest) || HasValue(plugs, dest) {
        return Fail(ValueError(InUseMessage("Destination of plugboard", src, dest)));
      }
      AddPlug(plugs, src, dest);
      plugs := Put(plugs, src, dest);
      LookupOfPlug(plugs, |plugs| - 1);
      return Pass;
    }

    /** `GetPlug(src)`: the other end of a plug, or the contact itself. */
    function GetPlug(src: int): (r: Result<int>)
      reads this
      ensures r.Err? <==> !(1 <= src <= NoOfRotorContacts)
      ensures r.Err? ==> r.error == ValueError("Invalid source plug position")
      ensures r.Ok? && !InUse(plugs, src) ==> r.value == src
    {
      if !ValidatePosition(src) then Err(ValueError("Invalid source plug position"))
      else Ok(Lookup(plugs, src))
    }
  }

  /** A valid plugboard sends every contact to a contact. */
  lemma GetPlugIsContact(p: Plugboard, x: Pin)
    requires p.Valid()
    ensures p.GetPlug(x).Ok? && 1 <= p.GetPlug(x).value <= NoOfRotorContacts
  {
    if HasKey(p.plugs, x) {
      var i :| 0 <= i < |p.plugs| && p.plugs[i].0 == x;
      LookupOfPlug(p.plugs, i);
    } else if HasValue(p.plugs, x) {
      var i :| 0 <= i < |p.plugs| && p.plugs[i].1 == x;
      LookupOfPlug(p.plugs, i);
    }
  }

  /** Plugging is symmetric: whatever a contact is plugged to is plugged
      back to it. */
  lemma GetPlugSymmetric(p: Plugboard, x: int)
    requires p.Valid() && p.GetPlug(x).Ok?
    ensures p.GetPlug(p.GetPlug(x).value) == Ok(x)
  {
    GetPlugIsContact(p, x);
    LookupInvolution(p.plugs, x);
  }
}
