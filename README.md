# Jumble Helper: the anagram index and the entry editor, in Dafny

Jumble Helper solves word jumbles. At start-up it reads a dictionary, one word
per line, into a `WordMap`: a hash map from a *canonical key* (the word's
characters sorted into code-point order) to every dictionary word with that key,
in dictionary order. Each frame, the user edits an uppercase entry with the
keyboard. Whenever the entry changes, the program looks it up. The lookup
returns nothing when the entry's length is outside `4..10`. Otherwise it sorts
the entry's characters and returns the group stored under that key. When the
group holds exactly one word, that word becomes the displayed answer.

The model has these modules:

- `Canonical` (`canonical.dfy`): the canonical key. `SortedChars` is an
  insertion sort, specified as sorted and a permutation of its input.
  `SortedUnique` shows that these two properties fix the result, so any
  sorting algorithm, including `chars().sorted()`, gives the same key.
  Two words share a key exactly when they are anagrams.
- `TextLines` (`lines.dfy`): `str::lines`. A line ends at `'\n'`, and a
  `'\r'` just before that `'\n'` is dropped. The final terminator is optional.
- `Wordmap` (`wordmap.dfy`): the `WordMap` class. Its `inner` field of type
  `map<string, seq<string>>` stands for the `HashMap`. `Insert` updates that
  field in place. `FindMatch` and `Len` are read-only functions. This module
  also holds `make_word_map`, `make_word_map_string`, `sorted_words` and
  `WordMaps::new`. Two specification functions go with them: `Inserted`
  describes one insertion and `BuildIndex` the whole build. The lemmas
  characterise a built map completely: under each key it holds exactly the
  dictionary's anagrams of that key, in dictionary order.
- `Entry` (`entry.dfy`): `handle_keyboard_input`. The keys released in the
  frame are a parameter.
- `Jumble` (`jumble.dfy`): `main` without drawing. `Frame` is one pass of the
  frame loop, including the answer-update rule. `Run` builds the map and runs a
  finite list of frames.
- `Scenarios` (`scenarios.dfy`): lookups on two small dictionaries, derived
  from the general lemmas.

Strings are `seq<char>` and lengths are character counts. The source measures
byte length (`q.len()`, `entry.len()`). The two agree because dictionary words
and entries are uppercase ASCII.

Two behaviours of the program that are easy to miss:

- Answer rule: when a lookup finds several words, `main` keeps the previous
  answer, and it clears the answer only when the lookup returns `None`
  (`src/main.rs:251-257`). `Jumble.Frame` states this rule.
- Blank lines: a blank dictionary line is filed under the empty key, as in the
  program.

## Model

| member | source | states |
|---|---|---|
| Canonical.SortedChars | src/wordmap.rs:54 | the key of a word is sorted (non-decreasing), has the word's length and is a permutation (same multiset) of it |
| Canonical.SortedUnique | src/wordmap.rs:54 | a sorted string is determined by its multiset of characters, so the key does not depend on the sorting algorithm |
| Canonical.CanonicalIffAnagram | src/wordmap.rs:26-29 | two words have the same key if and only if they are anagrams (equal character multisets) |
| Canonical.SortedCharsIdempotent | src/wordmap.rs:26-29 | the key of a key is the key itself |
| TextLines.Lines | src/wordmap.rs:120 | splitting text into lines gives no line at all exactly for empty text, and no line contains a newline |
| TextLines.LinesOfJoinLines | src/wordmap.rs:120 | splitting a dictionary written one word per line gives back exactly its words, in order |
| TextLines.LinesCount | src/wordmap.rs:120 | the number of lines is the number of newlines, plus one for an unterminated last line |
| Wordmap.Inserted | src/wordmap.rs:41-48 | after filing `u` under `s`: if `s` was absent its group is `[u]`, otherwise the old group followed by `u`; every other key and group is unchanged; the key count rises by exactly 1 iff `s` was absent |
| Wordmap.BuildIndex | src/wordmap.rs:118-123 | the map the insert loop builds: every key is sorted and no group is empty |
| Wordmap.WordMap.Insert | src/wordmap.rs:45-48 | updates the map in place to `Inserted(old map, s, u)`, and `Len` rises by 1 iff `s` was absent |
| Wordmap.WordMap.constructor | src/wordmap.rs:36-40 | a new word map is empty |
| Wordmap.WordMap.FindMatch | src/wordmap.rs:50-56 | `None` whenever the length of `q` is below `minlen` or above `maxlen`, whatever the map holds; in range, `Some` iff some stored key is sorted and a permutation of `q`, and then exactly that key's group |
| Wordmap.FindMatchAnagramInvariant | src/wordmap.rs:50-56 | queries that are permutations of each other get the same result |
| Wordmap.WordMap.Len | src/wordmap.rs:61-64 | counts distinct keys, not words; zero iff the map is empty |
| Wordmap.BuildIndexGroups | src/wordmap.rs:115-126 | in a built map the group under any sorted key is exactly the dictionary's anagrams of it, in dictionary order |
| Wordmap.BuildIndexHasEveryLine | src/wordmap.rs:120-123 | every dictionary line is in the group under its own key |
| Wordmap.BuildIndexGroupsAreAnagrams | src/wordmap.rs:26-29 | every word of a group is a dictionary line whose key is that group's key |
| Wordmap.BuildIndexTotalWords | src/wordmap.rs:115-126 | duplicates are kept: the group sizes add up to the number of lines |
| Wordmap.TotalWordsInserted | src/wordmap.rs:45-48 | each insert files exactly one more word |
| Wordmap.BuildIndexLen | src/wordmap.rs:61-64 | a built map has at most as many keys as the dictionary has lines |
| Wordmap.FindMatchAfterBuild | src/wordmap.rs:50-56 | on a built map, an in-range query yields every dictionary anagram of the query, in dictionary order, or `None` when there is none; out of range it yields `None` |
| Wordmap.AnagramsAreAnagrams | src/wordmap.rs:26-29 | the anagram list of a query holds exactly the dictionary lines that are anagrams of it |
| Wordmap.MakeWordMap | src/wordmap.rs:115-126 | returns a fresh map equal to `BuildIndex` of the text's lines |
| Wordmap.MakeWordMapString | src/wordmap.rs:128-139 | builds the same map as `make_word_map` |
| Wordmap.SortedWords | src/wordmap.rs:83-98 | one entry per line, in order; entry `i` is sorted and a permutation of line `i` |
| Wordmap.WordMaps.constructor | src/wordmap.rs:16-23 | `max_word_len + 1` distinct, fresh, empty maps |
| Entry.LetterOf | src/main.rs:185-212 | each letter key `A`..`Z` types an uppercase letter; the other keys type nothing (they are not letter keys) |
| Entry.TypedLetters | src/main.rs:184-213 | the letters typed by a run of keys are uppercase `A`..`Z`, one per key at most |
| Entry.LetterKeyTypesLetter | src/main.rs:186-211 | the key of each letter `A`..`Z` types exactly that letter |
| Entry.LetterIdentifiesKey | src/main.rs:186-212 | a key that types a letter is the key of that letter, so no two keys type the same letter |
| Entry.TypeKeys | src/main.rs:184-214 | the typing loop appends to the entry exactly the letters of the first `count` keys, in order |
| Entry.TypedLettersAppend | src/main.rs:184-214 | typing two runs of keys types their letters one after the other |
| Entry.TypedLettersOfWord | src/main.rs:184-214 | typing the keys of an uppercase word types that word |
| Entry.HandleKeyboardInput | src/main.rs:158-217 | no key released: `Unchanged`, entry untouched. Backspace first: pop (no-op on empty), `Changed`. Then Delete: clear, `Changed`. Then Escape: `Quit`, entry untouched. Otherwise append the letters of the first `min(maxlen - len(entry), #keys)` keys, `Changed`. The old entry is a prefix of the new one, the length bound and uppercase are kept, and only that last path needs `len(entry) <= maxlen` |
| Jumble.BuildIndexWellFiled | src/wordmap.rs:120-123 | every word of a built map is filed under its own key |
| Jumble.BuildIndexFiledIffLine | src/wordmap.rs:115-126 | a word is stored in a built map if and only if it is a dictionary line |
| Jumble.Frame | src/main.rs:242-258 | the entry is edited exactly as by `handle_keyboard_input` with limit 8 (no keys: `Unchanged`; Backspace, then Delete, then Escape; otherwise the letters of the first `min(8 - len(entry), #keys)` keys are appended, `Changed`). After a changed entry, `None` clears the answer, `Some` with one word sets it to that word, and `Some` with several words leaves it unchanged. An unchanged or quitting frame changes neither entry nor answer. When every word of the map is filed under its own key, a newly set answer is an anagram of the entry, has a length in `4..10` and is stored in the map |
| Jumble.Run | src/main.rs:225-262 | over any run of frames, the entry stays uppercase and at most 8 long, and the answer is empty or a dictionary word of length `4..10` |
| Scenarios.EatTeaArt | src/wordmap.rs:50-56 | from EAT, TEA, ART: "TAE" finds [EAT, TEA], "ART" finds [ART], "ZZZZ" finds nothing |
| Scenarios.PursueTrust | src/wordmap.rs:50-56 | from PURSUE, TRUST: "EUSRUP" in 6..6 finds [PURSUE], "TRUST" in 5..5 finds [TRUST], "TRUS" in 5..8 finds nothing |

## Left out

- Drawing and layout (`WindowValues`, `draw_text_box`, `draw_text_entry`, `draw_answer_centered`, `measure_text`, `window_conf`): floating-point geometry and calls into the graphics library.
- Font loading, `include_str!` of the dictionary, and the asynchronous frame loop (`next_frame().await`). `Run` takes the dictionary text and a finite list of frames instead. The real loop runs until Escape.
- `load_words_to_string`, whose file I/O and `println!` output are not modelled. The same goes for all other `println!` debugging output.
- `WordMap::iter`: `HashMap` iteration order is unspecified. The map is modelled as a Dafny `map`, which has no order.
- `wordmap.rs`'s own `main`: debugging code that only reads a file.
- Entry.HandleKeyboardInput: `get_keys_released()` returns a hash set, and its iteration order is unspecified. The model takes the released keys as a sequence in whatever order that set yields them. When more letters are released than fit, which of them are typed depends on that order.
- Entry.KeyCode: only the 26 letter keys, Backspace, Delete and Escape are named. Every other key of the keyboard library is `Other`, and the editor ignores those keys.
- Entry.HandleKeyboardInput: with an entry longer than `maxlen` on the typing path, the source's `usize` subtraction underflows. It panics in a debug build and wraps in a release build. The model requires the entry to be at most `maxlen` long on that path. `main` always keeps that bound (`Jumble.Run`).
- Byte lengths: `str::len` counts bytes. The model counts characters, and the two agree for the ASCII dictionary and entries.
- Wordmap.WordMaps.constructor: in the source, `max_word_len + 1` overflows `usize` when `max_word_len` is `usize::MAX`. A debug build panics there, and a release build wraps to 0 and allocates no map. The model's `nat` has no such case, so this overflow is not modelled.
