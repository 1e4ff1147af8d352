/** enigma_simulator/simulation/plugboard.py: the plugboard (Steckerbrett) of
    the simulation machine, a table from every contact to the contact it is
    plugged to, updated in place by `set_plug`. */
module SimulationPlugboard {
  import opened Wrappers
  import opened PyValues
  import opened Contacts

  /** `isinstance(v, RotorContact)`. */
  predicate IsContact(v: PyValue) {
    v.PyEnum? && 0 <= v.value < 26
  }

  /** A plug table that covers every contact and pairs contacts symmetrically. */
  ghost predicate IsInvolution(w: map<Contact, Contact>) {
    (forall c: Contact :: c in w) &&
    (forall c: Contact :: w[w[c]] == c)
  }

  /** `get_plug` on a contact: the other end of its plug, or itself. */
  function Plug(w: map<Contact, Contact>, src: Contact): Contact
    requires src in w
  {
    if w[src] != src then w[src] else src
  }

  /** On an involutive table a contact is plugged back to itself by a second
      trip through the plugboard. */
  lemma PlugTwiceIsIdentity(w: map<Contact, Contact>, c: Contact)
    requires IsInvolution(w)
    ensures Plug(w, Plug(w, c)) == c
  {
  }

  function InUseMessage(side: string, src: Contact, dest: Contact): string {
    "Plugboard " + side + " (" + [LetterOf(src)] + ":" + [LetterOf(dest)] + ") is already in use"
  }

  class Plugboard {
    var wiring: map<Contact, Contact>

    ghost predicate Valid() reads this {
      IsInvolution(wiring)
    }

    /** `__init__`: every contact is wired to itself. */
    constructor ()
      ensures Valid()
      ensures forall c: Contact :: c in wiring && wiring[c] == c
    {
      wiring := map[];
      new;
      var letter: int := 0;
      while letter < 26
        invariant 0 <= letter <= 26
        invariant forall c: Contact :: c in wiring <==> c < letter
        invariant forall c: Contact :: c in wiring ==> wiring[c] == c
      {
        wiring := wiring[letter := letter];
        letter := letter + 1;
      }
    }

    /** `set_plug(src, dest)`: every check comes before the two writes, so a
        rejected call leaves the table as it was. */
    method SetPlug(src: PyValue, dest: PyValue) returns (o: Outcome)
      requires Valid()
      modifies this
      ensures Valid()
      ensures !IsContact(src) ==> o == Fail(ValueError("Source plug position not valid"))
      ensures IsContact(src) && !IsContact(dest) ==> o == Fail(ValueError("Destination plug position not valid"))
      ensures IsContact(src) && IsContact(dest) ==>
        o == if old(wiring)[src.value] != src.value then Fail(ValueError(InUseMessage("source", src.value, dest.value)))
             else if old(wiring)[dest.value] != dest.value then Fail(ValueError(InUseMessage("destination", src.value, dest.value)))
             else Pass
      ensures o.Fail? ==> wiring == old(wiring)
      ensures o.Pass? ==> wiring == old(wiring)[src.value := dest.value][dest.value := src.value]
      ensures o.Pass? ==> Plug(wiring, src.value) == dest.value && Plug(wiring, dest.value) == src.value
    {
      if !IsContact(src) {
        return Fail(ValueError("Source plug position not valid"));
      }
      if !IsContact(dest) {
        return Fail(ValueError("Destination plug position not valid"));
      }
      var s: Contact, d: Contact := src.value, dest.value;
      if wiring[s] != s {
        return Fail(ValueError(InUseMessage("source", s, d)));
      }
      if wiring[d] != d {
        return Fail(ValueError(InUseMessage("destination", s, d)));
      }
      ghost var w0 := wiring;
      wiring := wiring[s := d];
      wiring := wiring[d := s];
      PlugPreservesInvolution(w0, s, d);
      return Pass;
    }

    /** `get_plug(src)`: a pure lookup. */
    function GetPlug(src: PyValue): (r: Result<Contact>)
      reads this
      requires Valid()
      ensures r.Err? <==> !IsContact(src)
      ensures r.Err? ==> r.error == ValueError("Invalid plug position")
      ensures r.Ok? ==> r.value == wiring[src.value] && wiring[r.value] == src.value
    {
      if !IsContact(src) then Err(ValueError("Invalid plug position"))
      else Ok(Plug(wiring, src.value))
    }
  }

  /** Pairing two contacts that are plugged to themselves keeps the table an
      involution; pairing a contact with itself leaves the table as it is. */
  lemma PlugPreservesInvolution(w: map<Contact, Contact>, s: Contact, d: Contact)
    requires IsInvolution(w) && w[s] == s && w[d] == d
    ensures IsInvolution(w[s := d][d := s])
    ensures s == d ==> w[s := d][d := s] == w
  {
    var w' := w[s := d][d := s];
    forall c: Contact
      ensures w'[w'[c]] == c
    {
      if c != s && c != d {
        assert w[w[c]] == c;
      }
    }
  }
}
