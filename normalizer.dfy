/** The word normaliser of project.cpp: a whitespace-delimited word is
    reduced to its ASCII letters and digits, in order, with the lower-case
    letters replaced by upper-case ones. */
module Normalizer {

  /** `isAlnum`: an ASCII letter of either case or an ASCII digit. */
  predicate IsAlnum(c: char) {
    ('A' <= c <= 'Z') || ('a' <= c <= 'z') || ('0' <= c <= '9')
  }

  /** A character a cleaned word may contain. */
  predicate IsTermChar(c: char) {
    ('A' <= c <= 'Z') || ('0' <= c <= '9')
  }

  /** A string of upper-case letters and digits only. */
  predicate IsTerm(s: string) {
    forall i :: 0 <= i < |s| ==> IsTermChar(s[i])
  }

  /** `toUpperCase`: a lower-case ASCII letter becomes the upper-case letter
      at the same place in the alphabet; every other character is kept. */
  function ToUpperCase(c: char): (r: char)
    ensures 'a' <= c <= 'z' ==> 'A' <= r <= 'Z' && r as int - 'A' as int == c as int - 'a' as int
    ensures !('a' <= c <= 'z') ==> r == c
    ensures !('a' <= r <= 'z')
    ensures IsAlnum(c) ==> IsTermChar(r)
  {
    if 'a' <= c <= 'z' then (c as int - 'a' as int + 'A' as int) as char else c
  }

  /** What one input character contributes to the cleaned word. */
  function Keep(c: char): (r: string)
    ensures |r| <= 1 && IsTerm(r)
    ensures r == [] <==> !IsAlnum(c)
  {
    if IsAlnum(c) then [ToUpperCase(c)] else []
  }

  /** The cleaned word, built up character by character as the loop does. */
  function Clean(word: string): string
  {
    if word == [] then [] else Clean(word[..|word| - 1]) + Keep(word[|word| - 1])
  }

  /** Every character of a cleaned word is an upper-case letter or a
      digit, and cleaning never lengthens a word. */
  lemma {:induction false} CleanIsTerm(word: string)
    ensures IsTerm(Clean(word))
    ensures |Clean(word)| <= |word|
    decreases |word|
  {
    if word != [] {
      CleanIsTerm(word[..|word| - 1]);
    }
  }

  /** The cleaning loop of `preprocessWords`. */
  method CleanWord(word: string) returns (cleanedWord: string)
    ensures cleanedWord == Clean(word)
  {
    cleanedWord := "";
    var i := 0;
    while i < |word|
      invariant 0 <= i <= |word|
      invariant cleanedWord == Clean(word[..i])
    {
      var c := word[i];
      assert word[..i + 1][..i] == word[..i];
      if IsAlnum(c) {
        cleanedWord := cleanedWord + [ToUpperCase(c)];
      }
      i := i + 1;
    }
    assert word[..|word|] == word;
  }

  /** Cleaning works piecewise: characters are neither reordered nor
      affected by their neighbours. */
  lemma {:induction false} CleanAppend(a: string, b: string)
    ensures Clean(a + b) == Clean(a) + Clean(b)
    decreases |b|
  {
    if b == [] {
      assert a + b == a;
    } else {
      var b' := b[..|b| - 1];
      assert (a + b)[..|a + b| - 1] == a + b';
      CleanAppend(a, b');
    }
  }

  /** Together with `CleanAppend`: the cleaned word is exactly the kept
      characters of the word, in order, each upper-cased. */
  lemma CleanFront(c: char, word: string)
    ensures Clean([c] + word) == Keep(c) + Clean(word)
  {
    CleanAppend([c], word);
    assert [c][..0] == [];
    assert Clean([c]) == Clean([]) + Keep(c);
  }

  /** A word that is already upper-case alphanumeric is its own cleaning. */
  lemma {:induction false} CleanOfTerm(s: string)
    requires IsTerm(s)
    ensures Clean(s) == s
    decreases |s|
  {
    if s != [] {
      var s', c := s[..|s| - 1], s[|s| - 1];
      assert IsTermChar(c);
      assert Keep(c) == [c];
      assert IsTerm(s') by {
        forall i | 0 <= i < |s'| ensures IsTermChar(s'[i]) {
          assert s'[i] == s[i];
        }
      }
      CleanOfTerm(s');
      assert s == s' + [c];
    }
  }

  /** Cleaning is idempotent. */
  lemma CleanIdempotent(word: string)
    ensures Clean(Clean(word)) == Clean(word)
  {
    CleanIsTerm(word);
    CleanOfTerm(Clean(word));
  }

  /** A word cleans to the empty string exactly when it has no ASCII
      letter or digit. */
  lemma {:induction false} CleanEmptyIff(word: string)
    ensures Clean(word) == [] <==> forall i :: 0 <= i < |word| ==> !IsAlnum(word[i])
    decreases |word|
  {
    if word != [] {
      var w' := word[..|word| - 1];
      CleanEmptyIff(w');
      assert forall i :: 0 <= i < |w'| ==> w'[i] == word[i];
    }
  }
}
