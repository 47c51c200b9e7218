/**
  The anagram index of `src/wordmap.rs`: a map from a canonical key (a word's
  characters, sorted) to the dictionary words with that key, in the order
  they were inserted.
 */
module Wordmap {
  import opened Canonical
  import opened TextLines

  datatype Option<T> = None | Some(value: T)

  /** The contents of a `WordMap`: sorted key to the words filed under it. */
  type Index = map<string, seq<string>>

  /** The words filed under `k`, or none. */
  function Group(m: Index, k: string): seq<string>
  {
    if k in m then m[k] else []
  }

  /** `k` is the canonical key of `q`: sorted, and made of exactly q's characters. */
  predicate IsKeyOf(k: string, q: string)
  {
    IsSorted(k) && multiset(k) == multiset(q)
  }

  lemma KeyOfIsSortedChars(k: string, q: string)
    ensures IsKeyOf(k, q) <==> k == SortedChars(q)
  {
    if IsKeyOf(k, q) {
      SortedUnique(k, SortedChars(q));
    }
  }

  /** The index after filing `unsorted` under `sorted`. */
  function Inserted(m: Index, sorted: string, unsorted: string): (r: Index)
    ensures r.Keys == m.Keys + {sorted}
    ensures sorted !in m ==> r[sorted] == [unsorted]
    ensures sorted in m ==> r[sorted] == m[sorted] + [unsorted]
    ensures forall k :: k in m && k != sorted ==> r[k] == m[k]
    ensures |r| == if sorted in m then |m| else |m| + 1
  {
    m[sorted := Group(m, sorted) + [unsorted]]
  }

  /** The dictionary words of `ws` that are anagrams of `q`, in dictionary order. */
  function Anagrams(ws: seq<string>, q: string): seq<string>
  {
    if ws == [] then []
    else
      var w := ws[|ws| - 1];
      Anagrams(ws[..|ws| - 1], q) + (if multiset(w) == multiset(q) then [w] else [])
  }

  /** What `make_word_map` builds from the lines `ws`: each inserted in turn under its key. */
  function BuildIndex(ws: seq<string>): (r: Index)
    ensures forall k :: k in r ==> IsSorted(k) && r[k] != []
  {
    if ws == [] then map[]
    else
      var w := ws[|ws| - 1];
      Inserted(BuildIndex(ws[..|ws| - 1]), SortedChars(w), w)
  }

  /** Total number of words filed in the index, over all keys. */
  ghost function TotalWords(m: Index): nat
    decreases |m|
  {
    if m == map[] then 0
    else
      var k :| k in m;
      assert |m - {k}| < |m| by { assert (m - {k}).Keys == m.Keys - {k}; }
      |m[k]| + TotalWords(m - {k})
  }

  class WordMap {
    var inner: Index

    /** An empty word map. */
    constructor ()
      ensures inner == map[]
    {
      inner := map[];
    }

    /** Files `unsorted` under the key `sorted`, after the words already there. */
    method Insert(sorted: string, unsorted: string)
      modifies this
      ensures inner == Inserted(old(inner), sorted, unsorted)
      ensures Len() == if sorted in old(inner) then old(Len()) else old(Len()) + 1
    {
      inner := inner[sorted := Group(inner, sorted) + [unsorted]];
    }

    /**
      The words whose key is the key of `q`, provided `q`'s length lies in
      `minlen..maxlen`; `None` outside that range or when no word has that key.
     */
    function FindMatch(q: string, minlen: nat, maxlen: nat): (r: Option<seq<string>>)
      reads this
      ensures |q| < minlen || |q| > maxlen ==> r == None
      ensures r.Some? <==> minlen <= |q| <= maxlen && exists k :: k in inner && IsKeyOf(k, q)
      ensures forall k :: k in inner && IsKeyOf(k, q) && minlen <= |q| <= maxlen ==> r == Some(inner[k])
    {
      if |q| < minlen || |q| > maxlen then None
      else
        var sortedQ := SortedChars(q);
        assert forall k :: IsKeyOf(k, q) <==> k == sortedQ by {
          forall k ensures IsKeyOf(k, q) <==> k == sortedQ { KeyOfIsSortedChars(k, q); }
        }
        if sortedQ in inner then Some(inner[sortedQ]) else None
    }

    /** The number of distinct keys (not of words). */
    function Len(): (n: nat)
      reads this
      ensures n == |inner.Keys|
      ensures n == 0 <==> inner == map[]
    {
      |inner|
    }
  }

  /** Two queries that are anagrams of each other get the same answer. */
  lemma FindMatchAnagramInvariant(wm: WordMap, q1: string, q2: string, minlen: nat, maxlen: nat)
    requires multiset(q1) == multiset(q2)
    ensures wm.FindMatch(q1, minlen, maxlen) == wm.FindMatch(q2, minlen, maxlen)
  {
    assert |q1| == |multiset(q1)| == |multiset(q2)| == |q2|;
    CanonicalIffAnagram(q1, q2);
  }

  lemma {:induction false} AnagramsOfKey(ws: seq<string>, q: string)
    ensures Anagrams(ws, SortedChars(q)) == Anagrams(ws, q)
  {
    if ws != [] {
      AnagramsOfKey(ws[..|ws| - 1], q);
    }
  }

  lemma {:induction false} AnagramsAreAnagrams(ws: seq<string>, q: string)
    ensures forall w :: w in Anagrams(ws, q) ==> w in ws && multiset(w) == multiset(q)
    ensures forall i :: 0 <= i < |ws| && multiset(ws[i]) == multiset(q) ==> ws[i] in Anagrams(ws, q)
    ensures |Anagrams(ws, q)| <= |ws|
  {
    if ws != [] {
      var init := ws[..|ws| - 1];
      AnagramsAreAnagrams(init, q);
      assert ws == init + [ws[|ws| - 1]];
      forall i | 0 <= i < |ws| && multiset(ws[i]) == multiset(q)
        ensures ws[i] in Anagrams(ws, q)
      {
        if i < |ws| - 1 { assert ws[i] == init[i]; }
      }
    }
  }

  /** Filing `w` under its key extends the anagram list of `k` exactly when `w` is an anagram of `k`. */
  lemma GroupAfterInsert(m: Index, ws: seq<string>, w: string, k: string)
    requires IsSorted(k) && Group(m, k) == Anagrams(ws, k)
    ensures Group(Inserted(m, SortedChars(w), w), k) == Anagrams(ws + [w], k)
  {
    assert (ws + [w])[..|ws|] == ws;
    CanonicalIffAnagram(w, k);
    SortedCharsOfSorted(k);
  }

  /**
    The contents of a built index: the group under a sorted key `k` is exactly
    the dictionary's anagrams of `k`, in dictionary order, duplicates included.
   */
  lemma {:induction false} BuildIndexGroups(ws: seq<string>)
    ensures forall k :: IsSorted(k) ==> Group(BuildIndex(ws), k) == Anagrams(ws, k)
  {
    if ws != [] {
      var init, w := ws[..|ws| - 1], ws[|ws| - 1];
      BuildIndexGroups(init);
      assert ws == init + [w];
      forall k | IsSorted(k)
        ensures Group(BuildIndex(ws), k) == Anagrams(ws, k)
      {
        GroupAfterInsert(BuildIndex(init), init, w, k);
      }
    }
  }

  /** Every dictionary line is found in the group under its own key. */
  lemma BuildIndexHasEveryLine(ws: seq<string>, i: nat)
    requires i < |ws|
    ensures SortedChars(ws[i]) in BuildIndex(ws) && ws[i] in BuildIndex(ws)[SortedChars(ws[i])]
  {
    var k := SortedChars(ws[i]);
    BuildIndexGroups(ws);
    AnagramsAreAnagrams(ws, k);
    assert ws[i] in Anagrams(ws, k);
  }

  /** Every word in a group is a dictionary line whose key is that group's key. */
  lemma BuildIndexGroupsAreAnagrams(ws: seq<string>, k: string, w: string)
    requires k in BuildIndex(ws) && w in BuildIndex(ws)[k]
    ensures w in ws && SortedChars(w) == k
  {
    BuildIndexGroups(ws);
    assert IsSorted(k);
    assert w in Anagrams(ws, k);
    AnagramsAreAnagrams(ws, k);
    KeyOfIsSortedChars(k, w);
  }

  lemma {:induction false} TotalWordsRemove(m: Index, k: string)
    requires k in m
    ensures TotalWords(m) == |m[k]| + TotalWords(m - {k})
    decreases |m|
  {
    var k' :| k' in m && TotalWords(m) == |m[k']| + TotalWords(m - {k'});
    if k' != k {
      var rest := m - {k'};
      assert |rest| < |m| by { assert rest.Keys == m.Keys - {k'}; }
      TotalWordsRemove(rest, k);
      var without := m - {k};
      assert |without| < |m| by { assert without.Keys == m.Keys - {k}; }
      TotalWordsRemove(without, k');
      assert rest - {k} == without - {k'};
    }
  }

  /** Each insert files exactly one more word. */
  lemma TotalWordsInserted(m: Index, sorted: string, unsorted: string)
    ensures TotalWords(Inserted(m, sorted, unsorted)) == TotalWords(m) + 1
  {
    var r := Inserted(m, sorted, unsorted);
    TotalWordsRemove(r, sorted);
    if sorted in m {
      TotalWordsRemove(m, sorted);
      assert r - {sorted} == m - {sorted};
    } else {
      assert r - {sorted} == m;
    }
  }

  /** Duplicates are kept: the groups of a built index hold one word per line. */
  lemma {:induction false} BuildIndexTotalWords(ws: seq<string>)
    ensures TotalWords(BuildIndex(ws)) == |ws|
  {
    if ws != [] {
      var init, w := ws[..|ws| - 1], ws[|ws| - 1];
      BuildIndexTotalWords(init);
      TotalWordsInserted(BuildIndex(init), SortedChars(w), w);
    }
  }

  /** A built index has at most one key per line. */
  lemma {:induction false} BuildIndexLen(ws: seq<string>)
    ensures |BuildIndex(ws)| <= |ws|
  {
    if ws != [] {
      BuildIndexLen(ws[..|ws| - 1]);
    }
  }

  /**
    Looking up a query in a map built from `ws`: within the length range the
    answer is every dictionary anagram of the query, in dictionary order, and
    `None` when there is none.
   */
  lemma FindMatchAfterBuild(wm: WordMap, ws: seq<string>, q: string, minlen: nat, maxlen: nat)
    requires wm.inner == BuildIndex(ws)
    ensures wm.FindMatch(q, minlen, maxlen)
      == if minlen <= |q| <= maxlen && Anagrams(ws, q) != [] then Some(Anagrams(ws, q)) else None
  {
    BuildIndexGroups(ws);
    AnagramsOfKey(ws, q);
    var k := SortedChars(q);
    KeyOfIsSortedChars(k, q);
    assert Group(wm.inner, k) == Anagrams(ws, q);
  }

  lemma BuildIndexPrefix(ws: seq<string>, i: nat)
    requires i < |ws|
    ensures BuildIndex(ws[..i + 1]) == Inserted(BuildIndex(ws[..i]), SortedChars(ws[i]), ws[i])
  {
    assert ws[..i + 1][..i] == ws[..i];
  }

  /** Builds a word map from newline-separated text (`make_word_map`). */
  method MakeWordMap(words: string) returns (wm: WordMap)
    ensures fresh(wm)
    ensures wm.inner == BuildIndex(Lines(words))
  {
    var ws := Lines(words);
    wm := new WordMap();
    for i := 0 to |ws|
      invariant wm.inner == BuildIndex(ws[..i])
    {
      BuildIndexPrefix(ws, i);
      wm.Insert(SortedChars(ws[i]), ws[i]);
    }
    assert ws[..|ws|] == ws;
  }

  /** `make_word_map_string`: the same construction over an owned string. */
  method MakeWordMapString(words: string) returns (wm: WordMap)
    ensures fresh(wm)
    ensures wm.inner == BuildIndex(Lines(words))
  {
    wm := MakeWordMap(words);
  }

  /** The canonical key of every line of `words`, in order (`sorted_words`). */
  method SortedWords(words: string) returns (ordered: seq<string>)
    ensures |ordered| == |Lines(words)|
    ensures forall i :: 0 <= i < |ordered| ==> IsKeyOf(ordered[i], Lines(words)[i])
  {
    var ws := Lines(words);
    ordered := [];
    for i := 0 to |ws|
      invariant |ordered| == i
      invariant forall j :: 0 <= j < i ==> IsKeyOf(ordered[j], ws[j])
    {
      ordered := ordered + [SortedChars(ws[i])];
    }
  }

  /** One word map per word length `0..maxWordLen` (`WordMaps::new`). */
  class WordMaps {
    var maps: seq<WordMap>

    constructor (maxWordLen: nat)
      ensures |maps| == maxWordLen + 1
      ensures forall i :: 0 <= i < |maps| ==> fresh(maps[i]) && maps[i].inner == map[]
      ensures forall i, j :: 0 <= i < j < |maps| ==> maps[i] != maps[j]
    {
      var ms: seq<WordMap> := [];
      for n := 0 to maxWordLen + 1
        invariant |ms| == n
        invariant forall i :: 0 <= i < n ==> fresh(ms[i]) && ms[i].inner == map[]
        invariant forall i, j :: 0 <= i < j < n ==> ms[i] != ms[j]
      {
        var wm := new WordMap();
        ms := ms + [wm];
      }
      maps := ms;
    }
  }
}
