/** The one-direction plug dictionary shared by src/Core/plugboard.py and
    src/Core/Plugboard_.py: a plug from src to dest is stored once, as the
    item src -> dest, and a lookup resolves both directions, by key first
    and then by value. The reverse step `keys()[values().index(src)]` is
    the Python 2 idiom that `Lookup` models; src/Core/plugboard.py, written
    for Python 3, raises there instead (see `CorePlugboard`). */
module PlugDicts {
  import opened Wrappers
  import opened PyValues
  import opened PyDicts

  /** `x in plugs or x in plugs.values()`. */
  predicate InUse(d: seq<(int, int)>, x: int) {
    HasKey(d, x) || HasValue(d, x)
  }

  /** No contact takes part in two plugs: apart from the distinct keys, no
      key is the value of another item and no value occurs twice. */
  predicate PlugsDisjoint(d: Dict) {
    forall i, j :: 0 <= i < |d| && 0 <= j < |d| && i != j ==> d[i].0 != d[j].1 && d[i].1 != d[j].1
  }

  /** The lookup of `GetPlug` in src/Core/Plugboard_.py once its position
      check has passed: the value of a key, else the first key holding the
      contact as its value, else the contact itself. */
  function Lookup(d: Dict, src: int): (r: int)
    ensures !InUse(d, src) ==> r == src
  {
    if HasKey(d, src) then Get(d, src).value
    else if HasValue(d, src) then FirstKeyWithValue(d, src).value
    else src
  }

  /** The in-use message, formatted with the two plug numbers. */
  function InUseMessage(prefix: string, src: int, dest: int): string {
    prefix + " (" + IntToString(src) + ":" + IntToString(dest) + ") is already in use"
  }

  /** Both ends of a stored plug look each other up. */
  lemma LookupOfPlug(d: Dict, i: nat)
    requires PlugsDisjoint(d) && i < |d|
    ensures Lookup(d, d[i].0) == d[i].1
    ensures Lookup(d, d[i].1) == d[i].0
  {
    assert HasKey(d, d[i].0);
    assert HasValue(d, d[i].1);
    if HasKey(d, d[i].1) {
      var j :| 0 <= j < |d| && d[j].0 == d[i].1;
      assert j == i;
    }
  }

  /** Looking up the result of a lookup gives the contact back. */
  lemma LookupInvolution(d: Dict, x: int)
    requires PlugsDisjoint(d)
    ensures Lookup(d, Lookup(d, x)) == x
  {
    if HasKey(d, x) {
      var i :| 0 <= i < |d| && d[i].0 == x;
      LookupOfPlug(d, i);
    } else if HasValue(d, x) {
      var i :| 0 <= i < |d| && d[i].1 == x;
      LookupOfPlug(d, i);
    }
  }

  /** Storing a plug between two contacts in no plug appends it and keeps
      the plugs disjoint. */
  lemma AddPlug(d: Dict, s: int, t: int)
    requires PlugsDisjoint(d) && !InUse(d, s) && !InUse(d, t)
    ensures Put(d, s, t) == d + [(s, t)]
    ensures PlugsDisjoint(d + [(s, t)])
  {
    PutNewKey(d, s, t);
    var e := d + [(s, t)];
    forall i, j | 0 <= i < |e| && 0 <= j < |e| && i != j
      ensures e[i].0 != e[j].1 && e[i].1 != e[j].1
    {
      if i == |d| {
        assert e[j] == d[j];
      } else if j == |d| {
        assert e[i] == d[i];
      } else {
        assert e[i] == d[i] && e[j] == d[j];
      }
    }
  }
}
