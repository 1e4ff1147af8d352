/** `std::map` with int-like keys, as the C++ classes use it: a list of
    (key, value) entries in strictly increasing key order, which is also
    the order a `begin()`..`end()` walk visits them in. */
module CppMaps {
  import opened Wrappers

  predicate SortedKeys<V>(m: seq<(int, V)>) {
    forall i, j :: 0 <= i < j < |m| ==> m[i].0 < m[j].0
  }

  type Map<V> = m: seq<(int, V)> | SortedKeys(m) witness []

  predicate HasKey<V>(m: seq<(int, V)>, k: int) {
    exists i :: 0 <= i < |m| && m[i].0 == k
  }

  /** `m.find(k)`: the value stored under k, or None for `end()`. */
  function Find<V>(m: Map<V>, k: int): (r: Option<V>)
    ensures r.None? <==> !HasKey(m, k)
    ensures forall i :: 0 <= i < |m| && m[i].0 == k ==> r == Some(m[i].1)
  {
    if m == [] then None
    else if m[0].0 == k then Some(m[0].1)
    else
      var r := Find(m[1..], k);
      assert forall i :: 1 <= i < |m| ==> m[1..][i - 1] == m[i];
      r
  }

  /** Putting an entry in front of a list whose keys all exceed its own
      keeps the keys sorted. */
  lemma ConsSorted<V>(e: (int, V), m: Map<V>)
    requires forall x :: x in m ==> e.0 < x.0
    ensures SortedKeys([e] + m)
  {
    var l := [e] + m;
    forall i, j | 0 <= i < j < |l| ensures l[i].0 < l[j].0 {
      assert l[j] == m[j - 1];
      if i > 0 {
        assert l[i] == m[i - 1];
      }
    }
  }

  /** The first entry has the least key, and the rest holds every other key. */
  lemma TailKeys<V>(m: Map<V>, k: int)
    requires m != []
    ensures forall x :: x in m[1..] ==> m[0].0 < x.0
    ensures HasKey(m, k) <==> m[0].0 == k || HasKey(m[1..], k)
  {
    forall x | x in m[1..] ensures m[0].0 < x.0 {
      var i :| 0 <= i < |m[1..]| && m[1..][i] == x;
      assert m[i + 1] == x;
    }
    if HasKey(m, k) && m[0].0 != k {
      var i :| 0 <= i < |m| && m[i].0 == k;
      assert m[1..][i - 1] == m[i];
    }
    if HasKey(m[1..], k) {
      var i :| 0 <= i < |m[1..]| && m[1..][i].0 == k;
      assert m[i + 1] == m[1..][i];
    }
  }

  /** A non-empty list is its first element followed by the rest. */
  lemma HeadTail<T>(s: seq<T>)
    requires s != []
    ensures s == [s[0]] + s[1..]
  {
    assert ([s[0]] + s[1..])[0] == s[0];
  }

  /** `m.insert({k, v})`: a key already present keeps its value; a new key
      takes its place in key order. */
  function Insert<V>(m: Map<V>, k: int, v: V): (r: Map<V>)
    ensures forall x :: x in r ==> x in m || x == (k, v)
    ensures |r| == if HasKey(m, k) then |m| else |m| + 1
    decreases |m|
  {
    if m == [] then [(k, v)]
    else if m[0].0 == k then m
    else
      TailKeys(m, k);
      if k < m[0].0 then
        ConsSorted((k, v), m);
        [(k, v)] + m
      else
        var rest := Insert(m[1..], k, v);
        ConsSorted(m[0], rest);
        [m[0]] + rest
  }

  /** After `insert({k, v})` the key k is present, holding v only if it was
      new; every other key is as before. */
  lemma {:induction false} FindInsert<V>(m: Map<V>, k: int, v: V, x: int)
    ensures Find(Insert(m, k, v), x) == if x == k && !HasKey(m, k) then Some(v) else Find(m, x)
    decreases |m|
  {
    if m != [] && m[0].0 != k && m[0].0 < k {
      FindInsert(m[1..], k, v, x);
      assert HasKey(m, k) <==> HasKey(m[1..], k) by {
        if HasKey(m, k) {
          var i :| 0 <= i < |m| && m[i].0 == k;
          assert m[1..][i - 1] == m[i];
        }
      }
    }
  }

  /** `insert` of a key already present changes nothing. */
  lemma {:induction false} InsertExistingKey<V>(m: Map<V>, k: int, v: V)
    requires HasKey(m, k)
    ensures Insert(m, k, v) == m
    decreases |m|
  {
    if m[0].0 != k {
      TailKeys(m, k);
      InsertExistingKey(m[1..], k, v);
      HeadTail(m);
    }
  }

  /** A key beyond every present key is appended at the end. */
  lemma {:induction false} InsertPastLastKey<V>(m: Map<V>, k: int, v: V)
    requires forall i :: 0 <= i < |m| ==> m[i].0 < k
    ensures Insert(m, k, v) == m + [(k, v)]
    decreases |m|
  {
    if m != [] {
      InsertPastLastKey(m[1..], k, v);
      HeadTail(m);
    }
  }

  /** `m[k] = v`: an existing key takes the new value in place, a new key is
      inserted in order. */
  function Assign<V>(m: Map<V>, k: int, v: V): (r: Map<V>)
    ensures forall x :: x in r ==> x in m || x == (k, v)
    ensures |r| == if HasKey(m, k) then |m| else |m| + 1
    decreases |m|
  {
    if m == [] then [(k, v)]
    else
      TailKeys(m, k);
      if m[0].0 == k then
        ConsSorted((k, v), m[1..]);
        [(k, v)] + m[1..]
      else if k < m[0].0 then
        ConsSorted((k, v), m);
        [(k, v)] + m
      else
        var rest := Assign(m[1..], k, v);
        ConsSorted(m[0], rest);
        [m[0]] + rest
  }

  /** After `m[k] = v` the key k holds v and every other key is as before. */
  lemma {:induction false} FindAssign<V>(m: Map<V>, k: int, v: V, x: int)
    ensures Find(Assign(m, k, v), x) == if x == k then Some(v) else Find(m, x)
    decreases |m|
  {
    if m != [] && m[0].0 < k {
      FindAssign(m[1..], k, v, x);
    }
  }
}
