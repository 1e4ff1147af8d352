/** src/libEnigmaSimulator/StringUtils.cpp: in-place rotation of a string
    by three reversals, and a letter-by-letter offset. The string is an
    array of characters changed in place. */
module StringUtils {
  import opened CppContacts

  /** The characters of s in reverse order. */
  function Reversed(s: seq<char>): (r: seq<char>)
    ensures |r| == |s|
    ensures forall i :: 0 <= i < |s| ==> r[i] == s[|s| - 1 - i]
  {
    seq(|s|, i requires 0 <= i < |s| => s[|s| - 1 - i])
  }

  /** s rotated left by k: its first k characters moved to the end. */
  function RotatedLeft(s: seq<char>, k: int): seq<char>
    requires 0 <= k <= |s|
  {
    s[k..] + s[..k]
  }

  /** Reversing the two reversed halves puts the second half first. */
  lemma ReverseOfReversedHalves(x: seq<char>, y: seq<char>)
    ensures Reversed(Reversed(x) + Reversed(y)) == y + x
  {
    var l := Reversed(Reversed(x) + Reversed(y));
    forall i | 0 <= i < |l| ensures l[i] == (y + x)[i] {
      var n := |x| + |y|;
      if i < |y| {
        assert l[i] == Reversed(y)[|y| - 1 - i];
      } else {
        assert l[i] == Reversed(x)[n - 1 - i];
      }
    }
  }

  /** Rotation keeps the length and the multiset of characters. */
  lemma RotationIsPermutation(s: seq<char>, k: int)
    requires 0 <= k <= |s|
    ensures |RotatedLeft(s, k)| == |s| && multiset(RotatedLeft(s, k)) == multiset(s)
  {
    assert s == s[..k] + s[k..];
  }

  /** A left rotation by k is undone by a left rotation by |s| - k, which is
      how `RightRotateString` rotates; rotating by 0 or by |s| changes
      nothing. */
  lemma RotationsUndo(s: seq<char>, k: int)
    requires 0 <= k <= |s|
    ensures RotatedLeft(RotatedLeft(s, k), |s| - k) == s
    ensures RotatedLeft(RotatedLeft(s, |s| - k), k) == s
    ensures RotatedLeft(s, 0) == s && RotatedLeft(s, |s|) == s
  {
    var r := RotatedLeft(s, k);
    assert r[|s| - k..] == s[..k] && r[..|s| - k] == s[k..];
    var r' := RotatedLeft(s, |s| - k);
    assert r'[k..] == s[..|s| - k] && r'[..k] == s[|s| - k..];
    assert s == s[..k] + s[k..];
    assert s == s[..|s| - k] + s[|s| - k..];
  }

  /** `std::reverse(begin + lo, begin + hi)`. */
  method Reverse(a: array<char>, lo: int, hi: int)
    requires 0 <= lo <= hi <= a.Length
    modifies a
    ensures a[..lo] == old(a[..lo]) && a[hi..] == old(a[hi..])
    ensures a[lo..hi] == Reversed(old(a[lo..hi]))
  {
    var i, j := lo, hi - 1;
    while i < j
      invariant lo <= i <= j + 1 <= hi && i + j == lo + hi - 1
      invariant forall k :: 0 <= k < lo || hi <= k < a.Length ==> a[k] == old(a[k])
      invariant forall k :: i <= k <= j ==> a[k] == old(a[k])
      invariant forall k :: lo <= k < i || j < k < hi ==> a[k] == old(a[lo + hi - 1 - k])
    {
      a[i], a[j] := a[j], a[i];
      i, j := i + 1, j - 1;
    }
    SwappedIsReversed(a[..], old(a[..]), lo, hi);
  }

  /** A string that agrees with t outside lo..hi and holds t's characters
      mirrored inside it is t with that slice reversed. */
  lemma SwappedIsReversed(s: seq<char>, t: seq<char>, lo: int, hi: int)
    requires 0 <= lo <= hi <= |s| == |t|
    requires forall k :: 0 <= k < lo || hi <= k < |s| ==> s[k] == t[k]
    requires forall k :: lo <= k < hi ==> s[k] == t[lo + hi - 1 - k]
    ensures s[..lo] == t[..lo] && s[hi..] == t[hi..]
    ensures s[lo..hi] == Reversed(t[lo..hi])
  {
    assert s[..lo] == t[..lo];
    assert s[hi..] == t[hi..];
    forall k | 0 <= k < hi - lo ensures s[lo..hi][k] == Reversed(t[lo..hi])[k] {
      assert s[lo..hi][k] == s[lo + k] == t[hi - 1 - k] == t[lo..hi][hi - lo - 1 - k];
    }
  }

  /** `LeftRotateString(str, offset)`: three reversals, for an offset within
      the string (the iterators are undefined otherwise). */
  method LeftRotateString(a: array<char>, offset: int)
    requires 0 <= offset <= a.Length
    modifies a
    ensures a[..] == RotatedLeft(old(a[..]), offset)
  {
    ghost var x, y := a[..offset], a[offset..];
    assert a[..] == x + y;
    Reverse(a, 0, offset);
    assert a[..] == Reversed(x) + y by {
      assert a[..] == a[..offset] + a[offset..];
    }
    Reverse(a, offset, a.Length);
    assert a[..] == Reversed(x) + Reversed(y) by {
      assert a[..] == a[..offset] + a[offset..];
      assert old(a[..])[offset..] == y;
    }
    Reverse(a, 0, a.Length);
    ReverseOfReversedHalves(x, y);
    assert a[..] == a[0..a.Length];
  }

  /** `RightRotateString(str, offset)`: the left rotation by length - offset. */
  method RightRotateString(a: array<char>, offset: int)
    requires 0 <= offset <= a.Length
    modifies a
    ensures a[..] == old(a[..])[a.Length - offset..] + old(a[..])[..a.Length - offset]
  {
    LeftRotateString(a, a.Length - offset);
  }

  /** `newLetter` for one character: `((ch - 65) + 1) + offset`, reduced once
      modulo 26 when past Z. */
  function NewLetter(ch: char, offset: int): int {
    var n := ((ch as int - 65) + 1) + offset;
    if n > MaxWiringEntries then n % MaxWiringEntries else n
  }

  /** Every character of s gives an index that `RotorContactStr` has. */
  predicate OffsetInRange(s: seq<char>, offset: int) {
    forall i :: 0 <= i < |s| ==> IsLetterContact(NewLetter(s[i], offset))
  }

  /** The letter `OffsetStringValue` writes for one character. */
  function OffsetLetter(ch: char, offset: int): char
    requires IsLetterContact(NewLetter(ch, offset))
  {
    RotorContactStr(NewLetter(ch, offset))
  }

  /** `OffsetStringValue(str, offset)`: each character is rewritten on its
      own. */
  method OffsetStringValue(a: array<char>, offset: int)
    requires OffsetInRange(a[..], offset)
    modifies a
    ensures forall i :: 0 <= i < a.Length ==> a[i] == OffsetLetter(old(a[i]), offset)
  {
    var idx := 0;
    while idx < a.Length
      invariant 0 <= idx <= a.Length
      invariant forall i :: 0 <= i < idx ==> a[i] == OffsetLetter(old(a[i]), offset)
      invariant forall i :: idx <= i < a.Length ==> a[i] == old(a[i])
    {
      assert IsLetterContact(NewLetter(a[..][idx], offset));
      a[idx] := OffsetLetter(a[idx], offset);
      idx := idx + 1;
    }
  }

  /** On upper-case letters, an offset of 0 .. 25 is a Caesar shift: the
      letter moves forward by the offset, wrapping from Z to A. */
  lemma OffsetIsCaesarShift(ch: char, offset: int)
    requires 'A' <= ch <= 'Z' && 0 <= offset < MaxWiringEntries
    ensures IsLetterContact(NewLetter(ch, offset))
    ensures OffsetLetter(ch, offset) as int == 65 + (ch as int - 65 + offset) % 26
  {
  }

  /** Offset 1 turns A into B, as the comment promises, and Z into A; an
      offset of 26 sends Z to index 0, which names no letter. */
  lemma OffsetExamples()
    ensures OffsetLetter('A', 1) == 'B' && OffsetLetter('Z', 1) == 'A'
    ensures NewLetter('Z', 26) == 0
  {
  }
}
