/**
  The canonical key of a word: its characters sorted into ascending code-point
  order, as `word.chars().sorted().collect::<String>()` computes it. Two words
  share a key exactly when they are anagrams of one another.
 */
module Canonical {

  /** Characters in non-decreasing order. */
  predicate IsSorted(s: string) {
    forall i, j :: 0 <= i < j < |s| ==> s[i] <= s[j]
  }

  /** A character no greater than any of a sorted string can go in front of it. */
  lemma SortedCons(x: char, t: string)
    requires IsSorted(t)
    requires forall i :: 0 <= i < |t| ==> x <= t[i]
    ensures IsSorted([x] + t)
  {
    var r := [x] + t;
    forall i, j | 0 <= i < j < |r| ensures r[i] <= r[j] {
      if i > 0 { assert r[i] == t[i - 1] && r[j] == t[j - 1]; }
      else { assert r[j] == t[j - 1]; }
    }
  }

  /** Places `c` into the sorted string `s`, keeping it sorted. */
  function InsertChar(c: char, s: string): (r: string)
    requires IsSorted(s)
    ensures IsSorted(r)
    ensures multiset(r) == multiset(s) + multiset{c}
    ensures |r| == |s| + 1
    ensures forall x :: x in r ==> x == c || x in s
  {
    if s == [] then [c]
    else if c <= s[0] then [c] + s
    else
      assert s == [s[0]] + s[1..];
      var t := InsertChar(c, s[1..]);
      assert forall i :: 0 <= i < |t| ==> s[0] <= t[i] by {
        forall i | 0 <= i < |t| ensures s[0] <= t[i] { assert t[i] in t; }
      }
      SortedCons(s[0], t);
      [s[0]] + t
  }

  /** The canonical key: the characters of `s`, sorted. */
  function SortedChars(s: string): (r: string)
    ensures IsSorted(r)
    ensures multiset(r) == multiset(s)
    ensures |r| == |s|
  {
    if s == [] then []
    else
      assert s == [s[0]] + s[1..];
      InsertChar(s[0], SortedChars(s[1..]))
  }

  /** The first character of a non-empty sorted string is its least one. */
  lemma SortedHeadIsLeast(a: string, x: char)
    requires IsSorted(a) && x in multiset(a)
    ensures a[0] <= x
  {
    var i :| 0 <= i < |a| && a[i] == x;
  }

  /** Removing the first character removes it from the multiset. */
  lemma MultisetTail(a: string)
    requires a != []
    ensures multiset(a[1..]) == multiset(a) - multiset{a[0]}
  {
    assert a == [a[0]] + a[1..];
  }

  /**
    Two sorted strings with one multiset start with the same character, and
    what follows it is again sorted with one multiset.
   */
  lemma SortedHeads(a: string, b: string)
    requires a != [] && b != []
    requires IsSorted(a) && IsSorted(b)
    requires multiset(a) == multiset(b)
    ensures a[0] == b[0]
    ensures IsSorted(a[1..]) && IsSorted(b[1..])
    ensures multiset(a[1..]) == multiset(b[1..])
  {
    SortedHeadIsLeast(a, b[0]);
    SortedHeadIsLeast(b, a[0]);
    MultisetTail(a);
    MultisetTail(b);
  }

  /** A sorted string is determined by its multiset of characters. */
  lemma {:induction false} SortedUnique(a: string, b: string)
    requires IsSorted(a) && IsSorted(b)
    requires multiset(a) == multiset(b)
    ensures a == b
  {
    if a == [] || b == [] {
      assert |a| == |multiset(a)| == |multiset(b)| == |b|;
    } else {
      SortedHeads(a, b);
      SortedUnique(a[1..], b[1..]);
      assert a == [a[0]] + a[1..] && b == [b[0]] + b[1..];
    }
  }

  /** Two words have the same key if and only if they are anagrams. */
  lemma CanonicalIffAnagram(a: string, b: string)
    ensures SortedChars(a) == SortedChars(b) <==> multiset(a) == multiset(b)
  {
    if multiset(a) == multiset(b) {
      SortedUnique(SortedChars(a), SortedChars(b));
    }
  }

  /** A key is its own key; sorting an already sorted word changes nothing. */
  lemma SortedCharsOfSorted(s: string)
    requires IsSorted(s)
    ensures SortedChars(s) == s
  {
    SortedUnique(SortedChars(s), s);
  }

  /** Sorting is idempotent. */
  lemma SortedCharsIdempotent(s: string)
    ensures SortedChars(SortedChars(s)) == SortedChars(s)
  {
    SortedCharsOfSorted(SortedChars(s));
  }
}
