/**
  The frame loop of `main` in `src/main.rs`, without its drawing: the word
  map is built once from the dictionary text, then every frame edits the
  entry and, when the entry changed, looks it up and updates the answer.
 */
module Jumble {
  import opened Canonical
  import opened TextLines
  import opened Wordmap
  import opened Entry

  const MIN_WORD_LENGTH: nat := 4
  const MAX_WORD_LENGTH: nat := 10
  /** The entry length limit `main` passes to `handle_keyboard_input`. */
  const ENTRY_MAX_LEN: nat := 8

  /** Every word of `m` is filed under its own key. */
  ghost predicate WellFiled(m: Index) {
    forall k, w :: k in m && w in m[k] ==> IsKeyOf(k, w)
  }

  /** `w` is one of the words stored in `m`. */
  predicate Filed(m: Index, w: string) {
    SortedChars(w) in m && w in m[SortedChars(w)]
  }

  /** A map built from a dictionary files each word under its own key. */
  lemma BuildIndexWellFiled(ws: seq<string>)
    ensures WellFiled(BuildIndex(ws))
  {
    var m := BuildIndex(ws);
    forall k, w | k in m && w in m[k] ensures IsKeyOf(k, w) {
      BuildIndexGroupsAreAnagrams(ws, k, w);
      KeyOfIsSortedChars(k, w);
    }
  }

  /** The words stored in a map built from a dictionary are exactly the dictionary's words. */
  lemma BuildIndexFiledIffLine(ws: seq<string>, w: string)
    ensures Filed(BuildIndex(ws), w) <==> w in ws
  {
    if w in ws {
      var i :| 0 <= i < |ws| && ws[i] == w;
      BuildIndexHasEveryLine(ws, i);
    }
    if Filed(BuildIndex(ws), w) {
      BuildIndexGroupsAreAnagrams(ws, SortedChars(w), w);
    }
  }

  /**
    One pass of the frame loop. When the entry changed and the lookup finds
    nothing, the answer is cleared; when it finds exactly one word, that word
    becomes the answer; when it finds several, the answer stays as it was.
   */
  method Frame(wordMap: WordMap, entry: string, answer: string, keysUp: seq<KeyCode>)
    returns (newEntry: string, newAnswer: string, status: EntryStatus)
    requires |entry| <= ENTRY_MAX_LEN
    ensures keysUp == [] ==> status == Unchanged && newEntry == entry
    ensures keysUp != [] && Backspace in keysUp ==>
      status == Changed && newEntry == if entry == [] then [] else entry[..|entry| - 1]
    ensures keysUp != [] && Backspace !in keysUp && Delete in keysUp ==>
      status == Changed && newEntry == []
    ensures keysUp != [] && Backspace !in keysUp && Delete !in keysUp && Escape in keysUp ==>
      status == Quit && newEntry == entry
    ensures TypesKeys(keysUp) ==>
      && status == Changed
      && newEntry == entry + TypedLetters(keysUp[..Min(ENTRY_MAX_LEN - |entry|, |keysUp|)])
    ensures |newEntry| <= ENTRY_MAX_LEN
    ensures IsUppercase(entry) ==> IsUppercase(newEntry)
    ensures status != Changed ==> newEntry == entry && newAnswer == answer
    ensures status == Changed ==>
      var matches := wordMap.FindMatch(newEntry, MIN_WORD_LENGTH, MAX_WORD_LENGTH);
      && (matches.None? ==> newAnswer == "")
      && (matches.Some? && |matches.value| == 1 ==> newAnswer == matches.value[0])
      && (matches.Some? && |matches.value| != 1 ==> newAnswer == answer)
    ensures WellFiled(wordMap.inner) && newAnswer != answer && newAnswer != "" ==>
      && MIN_WORD_LENGTH <= |newEntry| <= MAX_WORD_LENGTH
      && multiset(newAnswer) == multiset(newEntry)
      && Filed(wordMap.inner, newAnswer)
  {
    newEntry, status := HandleKeyboardInput(entry, keysUp, ENTRY_MAX_LEN);
    newAnswer := answer;
    if status == Changed {
      var matches := wordMap.FindMatch(newEntry, MIN_WORD_LENGTH, MAX_WORD_LENGTH);
      if matches.Some? {
        if |matches.value| == 1 {
          newAnswer := matches.value[0];
          if WellFiled(wordMap.inner) {
            var key := SortedChars(newEntry);
            assert IsKeyOf(key, newEntry) && IsKeyOf(key, newAnswer);
            KeyOfIsSortedChars(key, newAnswer);
          }
        }
      } else {
        newAnswer := "";
      }
    }
  }

  /**
    `main` over a finite run of frames, each given by the keys released in it:
    builds the word map from `words`, then runs frames until one asks to quit.
    The entry stays uppercase and within its limit, and the answer is always
    empty or a dictionary word that is an anagram of an entry of the right length.
   */
  method Run(words: string, frames: seq<seq<KeyCode>>) returns (entry: string, answer: string)
    ensures |entry| <= ENTRY_MAX_LEN && IsUppercase(entry)
    ensures answer == "" || answer in Lines(words)
    ensures answer != "" ==> MIN_WORD_LENGTH <= |answer| <= MAX_WORD_LENGTH
  {
    ghost var ws := Lines(words);
    var wordMap := MakeWordMap(words);
    BuildIndexWellFiled(ws);
    entry, answer := "", "";
    var f := 0;
    while f < |frames|
      invariant 0 <= f <= |frames|
      invariant wordMap.inner == BuildIndex(ws) && WellFiled(wordMap.inner)
      invariant |entry| <= ENTRY_MAX_LEN && IsUppercase(entry)
      invariant answer == "" || Filed(wordMap.inner, answer)
      invariant answer != "" ==> MIN_WORD_LENGTH <= |answer| <= MAX_WORD_LENGTH
    {
      var status;
      var newAnswer;
      entry, newAnswer, status := Frame(wordMap, entry, answer, frames[f]);
      if newAnswer != answer && newAnswer != "" {
        assert |newAnswer| == |multiset(newAnswer)| == |multiset(entry)| == |entry|;
      }
      answer := newAnswer;
      if status == Quit {
        break;
      }
      f := f + 1;
    }
    BuildIndexFiledIffLine(ws, answer);
  }
}
