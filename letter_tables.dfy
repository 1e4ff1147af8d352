/** Distinctness of a sequence, and two facts for checking it on a
    concrete 26-letter table one index at a time. */
module LetterTables {
  /** No element twice. */
  predicate Distinct<T(==)>(s: seq<T>) {
    forall i, j :: 0 <= i < j < |s| ==> s[i] != s[j]
  }

  /** A sequence is distinct exactly when its prefix is and its last
      element is new. */
  lemma DistinctSnoc<T>(s: seq<T>)
    requires s != []
    ensures Distinct(s) <==> Distinct(s[..|s| - 1]) && s[|s| - 1] !in s[..|s| - 1]
  {
    var n := |s| - 1;
    if Distinct(s[..n]) && s[n] !in s[..n] {
      forall i, j | 0 <= i < j < |s| ensures s[i] != s[j] {
        assert s[i] == s[..n][i];
        if j < n {
          assert s[j] == s[..n][j];
        }
      }
    }
    if Distinct(s) {
      assert forall i :: 0 <= i < n ==> s[..n][i] == s[i];
    }
  }

  /** A string of letters is distinct once some table maps each letter
      back to its index. */
  lemma DistinctByInverse(s: string, inv: seq<int>)
    requires |inv| == 26
    requires forall i :: 0 <= i < |s| ==> 'A' <= s[i] <= 'Z' && inv[s[i] as int - 65] == i
    ensures Distinct(s)
  {
  }

  /** The 26 cases of an index below 26, for checking a property of a
      concrete layout one index at a time. */
  lemma IndexCases(i: int)
    requires 0 <= i < 26
    ensures i == 0 || i == 1 || i == 2 || i == 3 || i == 4 || i == 5 || i == 6 || i == 7 || i == 8 ||
            i == 9 || i == 10 || i == 11 || i == 12 || i == 13 || i == 14 || i == 15 || i == 16 ||
            i == 17 || i == 18 || i == 19 || i == 20 || i == 21 || i == 22 || i == 23 || i == 24 || i == 25
  {
  }
}
