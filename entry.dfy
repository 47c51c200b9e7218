/**
  Editing the text entry from the keys released during one frame
  (`handle_keyboard_input` in `src/main.rs`). The released keys are a
  parameter, listed in the order the key set yields them.
 */
module Entry {

  /** The keys the entry editor reacts to; every other key is `Other`. */
  datatype KeyCode =
    | A | B | C | D | E | F | G | H | I | J | K | L | M
    | N | O | P | Q | R | S | T | U | V | W | X | Y | Z
    | Backspace | Delete | Escape
    | Other(code: int)

  /** Whether the entry changed, stayed the same, or the user asked to quit. */
  datatype EntryStatus = Changed | Unchanged | Quit

  /** The keys that type a letter: `A` to `Z`. */
  predicate IsLetterKey(k: KeyCode) {
    !(k.Backspace? || k.Delete? || k.Escape? || k.Other?)
  }

  /** The uppercase letter a letter key types. */
  function LetterOf(k: KeyCode): (c: char)
    requires IsLetterKey(k)
    ensures 'A' <= c <= 'Z'
  {
    match k
    case A => 'A' case B => 'B' case C => 'C' case D => 'D' case E => 'E'
    case F => 'F' case G => 'G' case H => 'H' case I => 'I' case J => 'J'
    case K => 'K' case L => 'L' case M => 'M' case N => 'N' case O => 'O'
    case P => 'P' case Q => 'Q' case R => 'R' case S => 'S' case T => 'T'
    case U => 'U' case V => 'V' case W => 'W' case X => 'X' case Y => 'Y'
    case Z => 'Z'
  }

  /** The key that types the uppercase letter `c`. */
  function KeyOf(c: char): KeyCode
    requires 'A' <= c <= 'Z'
  {
    match c
    case 'A' => A case 'B' => B case 'C' => C case 'D' => D case 'E' => E
    case 'F' => F case 'G' => G case 'H' => H case 'I' => I case 'J' => J
    case 'K' => K case 'L' => L case 'M' => M case 'N' => N case 'O' => O
    case 'P' => P case 'Q' => Q case 'R' => R case 'S' => S case 'T' => T
    case 'U' => U case 'V' => V case 'W' => W case 'X' => X case 'Y' => Y
    case _ => Z
  }

  /** Each letter `A`..`Z` is typed by its own key. */
  lemma LetterKeyTypesLetter(c: char)
    requires 'A' <= c <= 'Z'
    ensures IsLetterKey(KeyOf(c)) && LetterOf(KeyOf(c)) == c
  {
  }

  /** A key that types a letter is the key of that letter. */
  lemma LetterIdentifiesKey(k: KeyCode)
    requires IsLetterKey(k)
    ensures KeyOf(LetterOf(k)) == k
  {
  }

  /** The released keys reach the typing loop: some were released, none of them a control key. */
  predicate TypesKeys(keys: seq<KeyCode>) {
    keys != [] && Backspace !in keys && Delete !in keys && Escape !in keys
  }

  function Min(a: int, b: int): int {
    if a < b then a else b
  }

  /** Only uppercase ASCII letters. */
  predicate IsUppercase(s: string) {
    forall i :: 0 <= i < |s| ==> 'A' <= s[i] <= 'Z'
  }

  /** The letters typed by `keys`, in order; keys that are not letters type nothing. */
  function TypedLetters(keys: seq<KeyCode>): (s: string)
    ensures |s| <= |keys|
    ensures IsUppercase(s)
  {
    if keys == [] then []
    else
      var k := keys[|keys| - 1];
      TypedLetters(keys[..|keys| - 1]) + (if IsLetterKey(k) then [LetterOf(k)] else [])
  }

  /** Typing two runs of keys types the letters of each, one after the other. */
  lemma {:induction false} TypedLettersAppend(ks1: seq<KeyCode>, ks2: seq<KeyCode>)
    ensures TypedLetters(ks1 + ks2) == TypedLetters(ks1) + TypedLetters(ks2)
    decreases |ks2|
  {
    if ks2 == [] {
      assert ks1 + ks2 == ks1;
    } else {
      var init := ks2[..|ks2| - 1];
      assert (ks1 + ks2)[..|ks1 + ks2| - 1] == ks1 + init;
      TypedLettersAppend(ks1, init);
    }
  }

  /** Typing the keys of an uppercase word types that word. */
  lemma {:induction false} TypedLettersOfWord(w: string)
    requires IsUppercase(w)
    ensures TypedLetters(seq(|w|, i requires 0 <= i < |w| => KeyOf(w[i]))) == w
  {
    if w != [] {
      var init := w[..|w| - 1];
      LetterKeyTypesLetter(w[|w| - 1]);
      TypedLettersOfWord(init);
      var keys := seq(|w|, i requires 0 <= i < |w| => KeyOf(w[i]));
      assert keys[..|w| - 1] == seq(|init|, i requires 0 <= i < |init| => KeyOf(init[i]));
      assert w == init + [w[|w| - 1]];
    }
  }

  /**
    One frame of entry editing. With no key released nothing changes;
    otherwise Backspace drops the last character, failing that Delete clears
    the entry, failing that Escape asks to quit; otherwise the first
    `min(maxlen - |entry|, |keysUp|)` keys are typed, letters only.
   */
  method HandleKeyboardInput(entry: string, keysUp: seq<KeyCode>, maxlen: nat)
    returns (newEntry: string, status: EntryStatus)
    requires TypesKeys(keysUp) ==> |entry| <= maxlen
    ensures keysUp == [] ==> status == Unchanged && newEntry == entry
    ensures keysUp != [] && Backspace in keysUp ==>
      status == Changed && newEntry == if entry == [] then [] else entry[..|entry| - 1]
    ensures keysUp != [] && Backspace !in keysUp && Delete in keysUp ==>
      status == Changed && newEntry == []
    ensures keysUp != [] && Backspace !in keysUp && Delete !in keysUp && Escape in keysUp ==>
      status == Quit && newEntry == entry
    ensures TypesKeys(keysUp) ==>
      && status == Changed
      && newEntry == entry + TypedLetters(keysUp[..Min(maxlen - |entry|, |keysUp|)])
    ensures TypesKeys(keysUp) ==> entry <= newEntry
    ensures |entry| <= maxlen ==> |newEntry| <= maxlen
    ensures IsUppercase(entry) ==> IsUppercase(newEntry)
    ensures status == Changed || newEntry == entry
  {
    var numKeysUp := |keysUp|;
    if numKeysUp == 0 {
      return entry, Unchanged;
    }
    if Backspace in keysUp {
      newEntry := if entry == [] then [] else entry[..|entry| - 1];
      return newEntry, Changed;
    }
    if Delete in keysUp {
      return [], Changed;
    }
    if Escape in keysUp {
      return entry, Quit;
    }

    var entryRem := maxlen - |entry|;
    var keysToTake := Min(entryRem, numKeysUp);
    newEntry := TypeKeys(entry, keysUp, keysToTake);
    status := Changed;
  }

  /** The typing loop: appends the letters of the first `count` keys to `entry`. */
  method TypeKeys(entry: string, keys: seq<KeyCode>, count: nat) returns (newEntry: string)
    requires count <= |keys|
    ensures newEntry == entry + TypedLetters(keys[..count])
  {
    newEntry := entry;
    for n := 0 to count
      invariant newEntry == entry + TypedLetters(keys[..n])
    {
      assert keys[..n + 1][..n] == keys[..n];
      if IsLetterKey(keys[n]) {
        newEntry := newEntry + [LetterOf(keys[n])];
      }
    }
  }
}
