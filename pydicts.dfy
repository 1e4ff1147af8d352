/** Python dictionaries from int to int, as the rotor and plugboard code
    uses them: a list of (key, value) items in insertion order, no key
    twice. Lookup, item assignment, the inverting comprehension
    `{v: k for k, v in d.items()}` and the Python 2 idiom
    `d.keys()[d.values().index(v)]` are modelled on that list. */
module PyDicts {
  import opened Wrappers

  predicate KeysUnique(items: seq<(int, int)>) {
    forall i, j :: 0 <= i < j < |items| ==> items[i].0 != items[j].0
  }

  type Dict = items: seq<(int, int)> | KeysUnique(items) witness []

  predicate HasKey(d: seq<(int, int)>, k: int) {
    exists i :: 0 <= i < |d| && d[i].0 == k
  }

  predicate HasValue(d: seq<(int, int)>, v: int) {
    exists i :: 0 <= i < |d| && d[i].1 == v
  }

  /** The keys of an item list are the first item's key and the keys of the rest. */
  lemma HasKeyCons(h: (int, int), t: seq<(int, int)>, x: int)
    ensures HasKey([h] + t, x) <==> h.0 == x || HasKey(t, x)
  {
    var l := [h] + t;
    if HasKey(t, x) {
      var i :| 0 <= i < |t| && t[i].0 == x;
      assert l[i + 1].0 == x;
    }
    if HasKey(l, x) && h.0 != x {
      var i :| 0 <= i < |l| && l[i].0 == x;
      assert l[0] == h;
      assert t[i - 1].0 == x;
    }
  }

  /** `d[k]`, or None where Python raises KeyError. */
  function Get(d: Dict, k: int): (r: Option<int>)
    ensures r.None? <==> !HasKey(d, k)
    ensures forall i :: 0 <= i < |d| && d[i].0 == k ==> r == Some(d[i].1)
  {
    if d == [] then None
    else if d[0].0 == k then Some(d[0].1)
    else
      HasKeyCons(d[0], d[1..], k);
      assert d == [d[0]] + d[1..];
      Get(d[1..], k)
  }

  /** `d[k] = v`: an existing key keeps its place and takes the new value,
      a new key is appended. */
  function Put(d: Dict, k: int, v: int): (r: Dict)
    ensures forall x :: HasKey(r, x) <==> x == k || HasKey(d, x)
    ensures |r| == if HasKey(d, k) then |d| else |d| + 1
  {
    assert d != [] ==> d == [d[0]] + d[1..];
    if d == [] then
      assert forall x :: HasKey([(k, v)], x) <==> x == k by {
        forall x ensures HasKey([(k, v)], x) <==> x == k {
          HasKeyCons((k, v), [], x);
        }
      }
      [(k, v)]
    else if d[0].0 == k then
      forall x ensures HasKey([(k, v)] + d[1..], x) <==> x == k || HasKey(d, x) {
        HasKeyCons((k, v), d[1..], x);
        HasKeyCons(d[0], d[1..], x);
      }
      [(k, v)] + d[1..]
    else
      var rest := Put(d[1..], k, v);
      HasKeyCons(d[0], d[1..], k);
      assert !HasKey(rest, d[0].0) by {
        HasKeyCons(d[0], d[1..], d[0].0);
        assert forall i :: 0 <= i < |d[1..]| ==> d[1..][i] == d[i + 1];
      }
      forall x ensures HasKey([d[0]] + rest, x) <==> x == k || HasKey(d, x) {
        HasKeyCons(d[0], rest, x);
        HasKeyCons(d[0], d[1..], x);
      }
      assert KeysUnique([d[0]] + rest) by {
        var l := [d[0]] + rest;
        forall i, j | 0 <= i < j < |l| ensures l[i].0 != l[j].0 {
          if i == 0 {
            assert rest[j - 1].0 == l[j].0;
          } else {
            assert rest[i - 1] == l[i] && rest[j - 1] == l[j];
          }
        }
      }
      [d[0]] + rest
  }

  /** Assigning a new key appends its item. */
  lemma {:induction false} PutNewKey(d: Dict, k: int, v: int)
    requires !HasKey(d, k)
    ensures Put(d, k, v) == d + [(k, v)]
    decreases |d|
  {
    if d != [] {
      HasKeyCons(d[0], d[1..], k);
      assert d == [d[0]] + d[1..];
      PutNewKey(d[1..], k, v);
    }
  }

  /** After `d[k] = v`, looking up k gives v and every other key is as before. */
  lemma {:induction false} GetPut(d: Dict, k: int, v: int, x: int)
    ensures Get(Put(d, k, v), x) == if x == k then Some(v) else Get(d, x)
    decreases |d|
  {
    if d != [] && d[0].0 != k {
      GetPut(d[1..], k, v, x);
    }
  }

  /** `{v: k for k, v in d.items()}`: the items are visited in order and a
      later key with the same value overwrites an earlier one. */
  function Invert(d: Dict): Dict
    decreases |d|
  {
    if d == [] then []
    else
      var n := |d| - 1;
      Put(Invert(d[..n]), d[n].1, d[n].0)
  }

  /** The inverted dictionary has an entry exactly for the values of the
      original. */
  lemma {:induction false} InvertHasKey(d: Dict, v: int)
    ensures HasKey(Invert(d), v) <==> HasValue(d, v)
    decreases |d|
  {
    if d != [] {
      var n := |d| - 1;
      InvertHasKey(d[..n], v);
      if HasValue(d[..n], v) {
        var i :| 0 <= i < n && d[..n][i].1 == v;
        assert d[i].1 == v;
      }
      if HasValue(d, v) && d[n].1 != v {
        var i :| 0 <= i < |d| && d[i].1 == v;
        assert d[..n][i].1 == v;
      }
    }
  }

  /** The inverted dictionary maps a value to the LAST key that has it. */
  lemma {:induction false} GetInvert(d: Dict, i: nat)
    requires i < |d|
    requires forall j :: i < j < |d| ==> d[j].1 != d[i].1
    ensures Get(Invert(d), d[i].1) == Some(d[i].0)
    decreases |d|
  {
    var n := |d| - 1;
    GetPut(Invert(d[..n]), d[n].1, d[n].0, d[i].1);
    if i < n {
      assert d[..n][i] == d[i];
      GetInvert(d[..n], i);
    }
  }

  /** `d.keys()[d.values().index(v)]`: the key of the FIRST item holding v,
      or None where `list.index` raises ValueError. */
  function FirstKeyWithValue(d: Dict, v: int): (r: Option<int>)
    ensures r.None? <==> !HasValue(d, v)
    ensures forall i :: 0 <= i < |d| && d[i].1 == v && (forall j :: 0 <= j < i ==> d[j].1 != v) ==>
              r == Some(d[i].0)
  {
    if d == [] then None
    else if d[0].1 == v then Some(d[0].0)
    else FirstKeyWithValue(d[1..], v)
  }

  /** No value twice. */
  predicate ValuesUnique(d: Dict) {
    forall i, j :: 0 <= i < j < |d| ==> d[i].1 != d[j].1
  }

  /** For a dictionary with no repeated value the two reverse lookups agree
      and both undo the forward lookup. */
  lemma ReverseLookups(d: Dict, i: nat)
    requires ValuesUnique(d) && i < |d|
    ensures Get(d, d[i].0) == Some(d[i].1)
    ensures Get(Invert(d), d[i].1) == Some(d[i].0)
    ensures FirstKeyWithValue(d, d[i].1) == Some(d[i].0)
  {
    GetInvert(d, i);
  }

  /** The forward lookup of a reverse lookup gives the value back. */
  lemma LookupOfReverse(d: Dict, v: int)
    requires ValuesUnique(d) && HasValue(d, v)
    ensures Get(Invert(d), v).Some? && Get(d, Get(Invert(d), v).value) == Some(v)
    ensures FirstKeyWithValue(d, v).Some? && Get(d, FirstKeyWithValue(d, v).value) == Some(v)
  {
    var i :| 0 <= i < |d| && d[i].1 == v;
    ReverseLookups(d, i);
  }
}
