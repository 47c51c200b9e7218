/**
  Splitting dictionary text into words, as Rust's `str::lines` does: a line
  ends at `'\n'`, a `'\r'` right before that `'\n'` is dropped too, and the
  last line needs no terminator (so "A\nB\n" and "A\nB" give the same lines).
 */
module TextLines {

  /** Index of the first `'\n'` in `s`, or `|s|` when there is none. */
  function NewlineIndex(s: string): (i: nat)
    ensures i <= |s|
    ensures forall j :: 0 <= j < i ==> s[j] != '\n'
    ensures i < |s| ==> s[i] == '\n'
  {
    if s == [] || s[0] == '\n' then 0 else 1 + NewlineIndex(s[1..])
  }

  /** Drops one trailing carriage return, if any. */
  function StripCr(s: string): (r: string)
    ensures |s| > 0 && s[|s| - 1] == '\r' ==> s == r + ['\r']
    ensures !(|s| > 0 && s[|s| - 1] == '\r') ==> r == s
  {
    if |s| > 0 && s[|s| - 1] == '\r' then s[..|s| - 1] else s
  }

  /** The lines of `text`, in order, without their terminators. */
  function Lines(text: string): (r: seq<string>)
    ensures r == [] <==> text == []
    ensures forall k :: 0 <= k < |r| ==> '\n' !in r[k]
    decreases |text|
  {
    if text == [] then []
    else
      var i := NewlineIndex(text);
      if i == |text| then [text]
      else [StripCr(text[..i])] + Lines(text[i + 1..])
  }

  /** A word that `Lines` gives back intact when it is written as one line. */
  predicate IsPlainLine(w: string) {
    '\n' !in w && !(|w| > 0 && w[|w| - 1] == '\r')
  }

  /** Writes each word followed by a newline: the layout of a dictionary file. */
  function JoinLines(ws: seq<string>): (text: string)
    ensures |text| >= |ws|
  {
    if ws == [] then [] else ws[0] + "\n" + JoinLines(ws[1..])
  }

  lemma NewlineIndexAfterLine(w: string, rest: string)
    requires '\n' !in w
    ensures NewlineIndex(w + "\n" + rest) == |w|
  {
    var s := w + "\n" + rest;
    var i := NewlineIndex(s);
    assert s[|w|] == '\n';
  }

  /** Reading a dictionary back: every plain word comes back as its own line. */
  lemma {:induction false} LinesOfJoinLines(ws: seq<string>)
    requires forall k :: 0 <= k < |ws| ==> IsPlainLine(ws[k])
    ensures Lines(JoinLines(ws)) == ws
  {
    if ws != [] {
      var w, rest := ws[0], JoinLines(ws[1..]);
      var text := w + "\n" + rest;
      assert JoinLines(ws) == text;
      NewlineIndexAfterLine(w, rest);
      assert text[..|w|] == w;
      assert text[|w| + 1..] == rest;
      LinesOfJoinLines(ws[1..]);
      assert ws == [w] + ws[1..];
    }
  }

  /** The number of lines equals the number of newlines, plus one for an unterminated tail. */
  lemma {:induction false} LinesCount(text: string)
    ensures |Lines(text)| == NewlineCount(text) + (if text == [] || text[|text| - 1] == '\n' then 0 else 1)
  {
    if text != [] {
      var i := NewlineIndex(text);
      NewlineCountSplit(text, i);
      if i < |text| {
        LinesCount(text[i + 1..]);
        if text[i + 1..] != [] {
          assert text[i + 1..][|text[i + 1..]| - 1] == text[|text| - 1];
        }
      }
    }
  }

  /** How many `'\n'` characters `s` holds. */
  function NewlineCount(s: string): nat
  {
    multiset(s)['\n']
  }

  lemma NewlineCountSplit(s: string, i: nat)
    requires i <= |s|
    requires forall j :: 0 <= j < i ==> s[j] != '\n'
    requires i < |s| ==> s[i] == '\n'
    ensures i == |s| ==> NewlineCount(s) == 0
    ensures i < |s| ==> NewlineCount(s) == 1 + NewlineCount(s[i + 1..])
  {
    assert s == s[..i] + s[i..];
    assert '\n' !in s[..i];
    if i < |s| {
      assert s[i..] == [s[i]] + s[i + 1..];
    }
  }
}
