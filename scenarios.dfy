/**
  Lookups on two small dictionaries, derived from the general lemmas of
  `Wordmap`: an ambiguous group, a unique one, a miss, and the length gate.
 */
module Scenarios {
  import opened Wordmap

  lemma AnagramsSnoc(ws: seq<string>, w: string, q: string)
    ensures Anagrams(ws + [w], q) == Anagrams(ws, q) + (if multiset(w) == multiset(q) then [w] else [])
  {
    assert (ws + [w])[..|ws|] == ws;
  }

  /** The letters of each example word, one lemma per word so that each is proved on its own. */
  lemma LettersOfEat() ensures multiset("EAT") == multiset{'A', 'E', 'T'} {}
  lemma LettersOfTea() ensures multiset("TEA") == multiset{'A', 'E', 'T'} {}
  lemma LettersOfTae() ensures multiset("TAE") == multiset{'A', 'E', 'T'} {}
  lemma LettersOfArt() ensures multiset("ART") == multiset{'A', 'R', 'T'} {}
  lemma LettersOfZzzz() ensures multiset("ZZZZ") == multiset{'Z', 'Z', 'Z', 'Z'} {}

  lemma AnagramsInEatTeaArt()
    ensures Anagrams(["EAT", "TEA", "ART"], "TAE") == ["EAT", "TEA"]
    ensures Anagrams(["EAT", "TEA", "ART"], "ART") == ["ART"]
    ensures Anagrams(["EAT", "TEA", "ART"], "ZZZZ") == []
  {
    LettersOfEat();
    LettersOfTea();
    LettersOfTae();
    LettersOfArt();
    LettersOfZzzz();
    assert multiset{'A', 'E', 'T'}['R'] == 0 && multiset{'A', 'R', 'T'}['R'] == 1;
    assert multiset{'A', 'E', 'T'}['Z'] == 0 && multiset{'A', 'R', 'T'}['Z'] == 0;
    assert [] + ["EAT"] == ["EAT"];
    assert ["EAT"] + ["TEA"] == ["EAT", "TEA"];
    assert ["EAT", "TEA"] + ["ART"] == ["EAT", "TEA", "ART"];
    AnagramsSnoc([], "EAT", "TAE");
    AnagramsSnoc(["EAT"], "TEA", "TAE");
    AnagramsSnoc(["EAT", "TEA"], "ART", "TAE");
    AnagramsSnoc([], "EAT", "ART");
    AnagramsSnoc(["EAT"], "TEA", "ART");
    AnagramsSnoc(["EAT", "TEA"], "ART", "ART");
    AnagramsSnoc([], "EAT", "ZZZZ");
    AnagramsSnoc(["EAT"], "TEA", "ZZZZ");
    AnagramsSnoc(["EAT", "TEA"], "ART", "ZZZZ");
  }

  /**
    In a map built from EAT, TEA, ART: "TAE" finds both EAT and TEA (which
    the answer rule does not display), "ART" finds ART alone, and the
    in-range "ZZZZ" finds nothing.
   */
  lemma EatTeaArt(wm: WordMap)
    requires wm.inner == BuildIndex(["EAT", "TEA", "ART"])
    ensures wm.FindMatch("TAE", 3, 3) == Some(["EAT", "TEA"])
    ensures wm.FindMatch("ART", 3, 3) == Some(["ART"])
    ensures wm.FindMatch("ZZZZ", 0, 4) == None
  {
    AnagramsInEatTeaArt();
    FindMatchAfterBuild(wm, ["EAT", "TEA", "ART"], "TAE", 3, 3);
    FindMatchAfterBuild(wm, ["EAT", "TEA", "ART"], "ART", 3, 3);
    FindMatchAfterBuild(wm, ["EAT", "TEA", "ART"], "ZZZZ", 0, 4);
  }

  lemma LettersOfPursue() ensures multiset("PURSUE") == multiset{'E', 'P', 'R', 'S', 'U', 'U'} {}
  lemma LettersOfEusrup() ensures multiset("EUSRUP") == multiset{'E', 'P', 'R', 'S', 'U', 'U'} {}
  lemma LettersOfTrust() ensures multiset("TRUST") == multiset{'R', 'S', 'T', 'T', 'U'} {}

  lemma AnagramsInPursueTrust()
    ensures Anagrams(["PURSUE", "TRUST"], "EUSRUP") == ["PURSUE"]
    ensures Anagrams(["PURSUE", "TRUST"], "TRUST") == ["TRUST"]
  {
    LettersOfPursue();
    LettersOfEusrup();
    LettersOfTrust();
    assert multiset{'E', 'P', 'R', 'S', 'U', 'U'}['T'] == 0;
    assert multiset{'R', 'S', 'T', 'T', 'U'}['T'] == 2;
    assert [] + ["PURSUE"] == ["PURSUE"];
    assert ["PURSUE"] + ["TRUST"] == ["PURSUE", "TRUST"];
    AnagramsSnoc([], "PURSUE", "EUSRUP");
    AnagramsSnoc(["PURSUE"], "TRUST", "EUSRUP");
    AnagramsSnoc([], "PURSUE", "TRUST");
    AnagramsSnoc(["PURSUE"], "TRUST", "TRUST");
  }

  /**
    In a map built from PURSUE, TRUST: "EUSRUP" in 6..6 finds PURSUE,
    "TRUST" in 5..5 finds TRUST, and "TRUS" is shorter than 5 and finds nothing.
   */
  lemma PursueTrust(wm: WordMap)
    requires wm.inner == BuildIndex(["PURSUE", "TRUST"])
    ensures wm.FindMatch("EUSRUP", 6, 6) == Some(["PURSUE"])
    ensures wm.FindMatch("TRUST", 5, 5) == Some(["TRUST"])
    ensures wm.FindMatch("TRUS", 5, 8) == None
  {
    AnagramsInPursueTrust();
    FindMatchAfterBuild(wm, ["PURSUE", "TRUST"], "EUSRUP", 6, 6);
    FindMatchAfterBuild(wm, ["PURSUE", "TRUST"], "TRUST", 5, 5);
  }
}
