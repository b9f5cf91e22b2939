/** The frequency profiler of project.cpp (`preprocessWords`): counts the
    accepted cleaned words of one document, turns each distinct term's
    count into a relative frequency, sorts the (term, frequency) pairs with
    the source's comparator and keeps at most `limit` of them. */
module Profiler {
  import opened Sums
  import opened Normalizer
  import opened Multisets

  /** A (term, relative frequency) pair. */
  type Entry = (string, real)

  /** A document's frequency profile. */
  type Profile = seq<Entry>

  /** The stop words; they never reach the counts. */
  const StopWords: set<string> := {"A", "AND", "AN", "OF", "IN", "THE"}

  /** A cleaned word that is counted: neither empty nor a stop word. */
  predicate Accepted(term: string) {
    term != [] && term !in StopWords
  }

  function Min(a: int, b: int): int {
    if a < b then a else b
  }

  // ---------------------------------------------------------------------
  // Counting (the `while (file >> word)` loop)
  // ---------------------------------------------------------------------

  /** `totalWords` after reading `words`. */
  function Total(words: seq<string>): nat
    decreases |words|
  {
    if words == [] then 0
    else Total(words[..|words| - 1]) + (if Accepted(Clean(words[|words| - 1])) then 1 else 0)
  }

  /** `wordCount` after reading `words`. */
  function CountMap(words: seq<string>): map<string, nat>
    decreases |words|
  {
    if words == [] then map[]
    else
      var m := CountMap(words[..|words| - 1]);
      var t := Clean(words[|words| - 1]);
      if Accepted(t) then m[t := CountOf(m, t) + 1] else m
  }

  /** `wordCount[term]`, which reads a missing term as zero. */
  function CountOf(m: map<string, nat>, term: string): nat {
    if term in m then m[term] else 0
  }

  /** Only accepted terms are counted; every count is at least one and
      at most the total; there are counts exactly when the total is
      positive. */
  lemma {:induction false} CountMapBounds(words: seq<string>)
    ensures forall t :: t in CountMap(words) ==> Accepted(t) && 1 <= CountMap(words)[t] <= Total(words)
    ensures |CountMap(words)| == 0 <==> Total(words) == 0
    decreases |words|
  {
    if words != [] {
      CountMapBounds(words[..|words| - 1]);
    }
  }

  /** How many of the words clean to `term`, counted from the front: an
      independent description of what `wordCount` holds. */
  function Occurrences(words: seq<string>, term: string): nat
    decreases |words|
  {
    if words == [] then 0
    else (if Clean(words[0]) == term then 1 else 0) + Occurrences(words[1..], term)
  }

  lemma {:induction false} OccurrencesAppend(words: seq<string>, word: string, term: string)
    ensures Occurrences(words + [word], term) == Occurrences(words, term) + (if Clean(word) == term then 1 else 0)
    decreases |words|
  {
    if words == [] {
      assert [] + [word] == [word];
      assert [word][1..] == [];
    } else {
      assert (words + [word])[1..] == words[1..] + [word];
      OccurrencesAppend(words[1..], word, term);
    }
  }

  /** `wordCount` holds every accepted term that occurs, with its number
      of occurrences. */
  lemma {:induction false} CountMapCountsOccurrences(words: seq<string>, term: string)
    requires Accepted(term)
    ensures term in CountMap(words) <==> Occurrences(words, term) > 0
    ensures term in CountMap(words) ==> CountMap(words)[term] == Occurrences(words, term)
    decreases |words|
  {
    if words != [] {
      var front, last := words[..|words| - 1], words[|words| - 1];
      assert words == front + [last];
      CountMapCountsOccurrences(front, term);
      OccurrencesAppend(front, last, term);
    }
  }

  /** `CountMap` and `Total` unfolded at a word appended at the end. */
  lemma AppendWord(words: seq<string>, word: string)
    ensures var t, m := Clean(word), CountMap(words);
      && CountMap(words + [word]) == (if Accepted(t) then m[t := CountOf(m, t) + 1] else m)
      && Total(words + [word]) == Total(words) + (if Accepted(t) then 1 else 0)
  {
    assert (words + [word])[..|words|] == words;
  }

  /** One word read: a dropped word changes nothing, an accepted one adds
      one to its own count and to the total and leaves the other counts. */
  lemma CountStep(words: seq<string>, word: string)
    ensures var m, m', t := CountMap(words), CountMap(words + [word]), Clean(word);
      && (!Accepted(t) ==> m' == m && Total(words + [word]) == Total(words))
      && (Accepted(t) ==>
            && Total(words + [word]) == Total(words) + 1
            && m'.Keys == m.Keys + {t}
            && m'[t] == CountOf(m, t) + 1
            && forall u :: u in m && u != t ==> m'[u] == m[u])
  {
    assert (words + [word])[..|words|] == words;
  }

  /** A document whose every word cleans to nothing or to a stop word has
      no counts at all. */
  lemma {:induction false} OnlyDroppedWords(words: seq<string>)
    requires forall i :: 0 <= i < |words| ==> !Accepted(Clean(words[i]))
    ensures Total(words) == 0 && CountMap(words) == map[]
    decreases |words|
  {
    if words != [] {
      OnlyDroppedWords(words[..|words| - 1]);
    }
  }

  /** The counts as reals. */
  function AsReals(m: map<string, nat>): (r: map<string, real>)
    ensures r.Keys == m.Keys
  {
    map t | t in m :: m[t] as real
  }

  /** Raising one count by one, possibly from zero, adds one to the sum
      of the counts. */
  lemma CountsSumIncrement(m: map<string, nat>, m': map<string, nat>, t: string)
    requires m'.Keys == m.Keys + {t}
    requires m'[t] == CountOf(m, t) + 1
    requires forall u :: u in m && u != t ==> m'[u] == m[u]
    ensures SumMap(AsReals(m'), m'.Keys) == SumMap(AsReals(m), m.Keys) + 1.0
  {
    var r, c := AsReals(m), CountOf(m, t) as real;
    var r' := r[t := c + 1.0];
    IncrementedReals(m, m', t);
    SumMapAgree(AsReals(m'), r', m'.Keys);
    if t in m {
      assert m'.Keys == m.Keys;
      SumMapUpdate(r, m.Keys, t, c + 1.0);
    } else {
      SumMapExtend(r, m.Keys, t, 1.0);
    }
  }

  lemma IncrementedReals(m: map<string, nat>, m': map<string, nat>, t: string)
    requires m'.Keys == m.Keys + {t}
    requires m'[t] == CountOf(m, t) + 1
    requires forall u :: u in m && u != t ==> m'[u] == m[u]
    ensures forall u :: u in m'.Keys ==> AsReals(m')[u] == AsReals(m)[t := CountOf(m, t) as real + 1.0][u]
  {
    forall u | u in m'.Keys ensures AsReals(m')[u] == AsReals(m)[t := CountOf(m, t) as real + 1.0][u] {
      if u != t { assert m'[u] == m[u]; }
    }
  }

  /** `totalWords` is the sum of all counts. */
  lemma {:induction false} TotalIsSumOfCounts(words: seq<string>)
    ensures Total(words) as real == SumMap(AsReals(CountMap(words)), CountMap(words).Keys)
    decreases |words|
  {
    if words != [] {
      var front, word := words[..|words| - 1], words[|words| - 1];
      assert words == front + [word];
      TotalIsSumOfCounts(front);
      CountStep(front, word);
      if Accepted(Clean(word)) {
        CountsSumIncrement(CountMap(front), CountMap(words), Clean(word));
      }
    }
  }

  /** The counting loop of `preprocessWords`. */
  method CountWords(words: seq<string>) returns (wordCount: map<string, nat>, totalWords: nat)
    ensures wordCount == CountMap(words)
    ensures totalWords == Total(words)
  {
    wordCount := map[];
    totalWords := 0;
    var i := 0;
    while i < |words|
      invariant 0 <= i <= |words|
      invariant wordCount == CountMap(words[..i])
      invariant totalWords == Total(words[..i])
    {
      assert words[..i + 1] == words[..i] + [words[i]];
      AppendWord(words[..i], words[i]);
      var cleanedWord := CleanWord(words[i]);
      if cleanedWord != [] && cleanedWord !in StopWords {
        wordCount := wordCount[cleanedWord := (if cleanedWord in wordCount then wordCount[cleanedWord] else 0) + 1];
        totalWords := totalWords + 1;
      }
      i := i + 1;
    }
    assert words[..|words|] == words;
  }

  // ---------------------------------------------------------------------
  // Relative frequencies (the `emplace_back` loop over `wordCount`)
  // ---------------------------------------------------------------------

  /** The relative frequency of a counted term. */
  ghost function Freq(words: seq<string>, term: string): (f: real)
    requires term in CountMap(words)
    ensures 0.0 < f <= 1.0
  {
    CountMapBounds(words);
    var c, n := CountMap(words)[term] as real, Total(words) as real;
    DivBounds(c, n);
    c / n
  }

  lemma DivBounds(c: real, n: real)
    requires 0.0 < c <= n
    ensures 0.0 < c / n <= 1.0
  {
    assert c / n * n == c;
  }

  /** Every counted term with its relative frequency. */
  ghost function FreqMap(words: seq<string>): (fm: map<string, real>)
    ensures fm.Keys == CountMap(words).Keys
  {
    map t | t in CountMap(words) :: Freq(words, t)
  }

  /** Each relative frequency is the count divided by the total. */
  lemma FreqMapDivides(words: seq<string>)
    requires Total(words) > 0
    ensures forall t :: t in CountMap(words).Keys ==>
      FreqMap(words)[t] == AsReals(CountMap(words))[t] / Total(words) as real
  {
    forall t | t in CountMap(words).Keys
      ensures FreqMap(words)[t] == AsReals(CountMap(words))[t] / Total(words) as real
    {
      assert FreqMap(words)[t] == Freq(words, t);
    }
  }

  /** The relative frequencies of a document with an accepted word sum to one. */
  lemma FrequencyMass(words: seq<string>)
    requires Total(words) > 0
    ensures SumMap(FreqMap(words), CountMap(words).Keys) == 1.0
  {
    var n, m := Total(words) as real, CountMap(words);
    TotalIsSumOfCounts(words);
    FreqMapDivides(words);
    SumMapDivided(AsReals(m), FreqMap(words), n, m.Keys);
    DivSelf(n);
  }

  lemma DivSelf(x: real)
    requires x != 0.0
    ensures x / x == 1.0
  {
  }

  /** The terms of a profile. */
  function TermSet(p: Profile): set<string> {
    set i | 0 <= i < |p| :: p[i].0
  }

  lemma TermSetAppend(p: Profile, e: Entry)
    ensures TermSet(p + [e]) == TermSet(p) + {e.0}
  {
    var q := p + [e];
    forall t | t in TermSet(q) ensures t in TermSet(p) + {e.0} {
      var i :| 0 <= i < |q| && q[i].0 == t;
      if i < |p| { assert p[i].0 == t; }
    }
    forall t | t in TermSet(p) ensures t in TermSet(q) {
      var i :| 0 <= i < |p| && p[i].0 == t;
      assert q[i].0 == t;
    }
    assert q[|p|].0 == e.0;
  }

  /** No term appears twice. */
  predicate DistinctTerms(p: Profile) {
    forall i, j :: 0 <= i < j < |p| ==> p[i].0 != p[j].0
  }

  /** Appending an entry for a new term keeps the terms distinct. */
  lemma AppendFresh(p: Profile, e: Entry)
    requires DistinctTerms(p) && e.0 !in TermSet(p)
    ensures DistinctTerms(p + [e])
    ensures TermSet(p + [e]) == TermSet(p) + {e.0}
  {
    TermSetAppend(p, e);
    var q := p + [e];
    forall i, j | 0 <= i < j < |q| ensures q[i].0 != q[j].0 {
      assert q[i] == p[i];
      if j < |p| { assert q[j] == p[j]; } else { assert p[i].0 in TermSet(p); }
    }
  }

  /** The sum of the frequencies of a profile. */
  function SumFreqs(p: Profile): real
    decreases |p|
  {
    if p == [] then 0.0 else SumFreqs(p[..|p| - 1]) + p[|p| - 1].1
  }

  /** A list without repeated terms, each paired with its value in `fm`,
      sums to the sum of `fm` over its terms. */
  lemma {:induction false} SumFreqsOver(p: Profile, fm: map<string, real>)
    requires DistinctTerms(p)
    requires forall i :: 0 <= i < |p| ==> p[i].0 in fm && fm[p[i].0] == p[i].1
    ensures TermSet(p) <= fm.Keys
    ensures SumFreqs(p) == SumMap(fm, TermSet(p))
    decreases |p|
  {
    if p != [] {
      var q, e := p[..|p| - 1], p[|p| - 1];
      assert p == q + [e];
      TermSetAppend(q, e);
      SumFreqsOver(q, fm);
      assert e.0 !in TermSet(q) by {
        forall i | 0 <= i < |q| ensures q[i].0 != e.0 {
          assert q[i] == p[i];
        }
      }
      assert e.0 in fm && fm[e.0] == e.1 by { assert p[|p| - 1] == e; }
      SumMapInsert(fm, TermSet(q), e.0);
    }
  }

  /** Every entry is a counted term with its relative frequency. */
  ghost predicate FrequencyEntries(words: seq<string>, p: Profile) {
    forall i :: 0 <= i < |p| ==> p[i].0 in CountMap(words) && p[i].1 == Freq(words, p[i].0)
  }

  /** The list built at project.cpp:60-64: one entry per counted term,
      with that term's relative frequency. */
  ghost predicate IsFrequencyList(words: seq<string>, p: Profile) {
    && FrequencyEntries(words, p)
    && DistinctTerms(p)
    && TermSet(p) == CountMap(words).Keys
    && |p| == |CountMap(words)|
  }

  /** Before sorting and truncation, the frequencies sum to one. */
  lemma FrequencyListSumsToOne(words: seq<string>, p: Profile)
    requires IsFrequencyList(words, p)
    requires Total(words) > 0
    ensures SumFreqs(p) == 1.0
  {
    SumFreqsOver(p, FreqMap(words));
    FrequencyMass(words);
  }

  /** Every entry holds a key of `wordCount` with its count divided by
      `totalWords`. */
  predicate ScaledEntries(wordCount: map<string, nat>, totalWords: nat, p: Profile)
    requires |wordCount| > 0 ==> totalWords > 0
  {
    forall i :: 0 <= i < |p| ==>
      p[i].0 in wordCount && p[i].1 == wordCount[p[i].0] as real / totalWords as real
  }

  lemma ScaledEntriesAppend(wordCount: map<string, nat>, totalWords: nat, p: Profile, term: string)
    requires |wordCount| > 0 ==> totalWords > 0
    requires ScaledEntries(wordCount, totalWords, p) && term in wordCount
    ensures ScaledEntries(wordCount, totalWords, p + [(term, wordCount[term] as real / totalWords as real)])
  {
    var p' := p + [(term, wordCount[term] as real / totalWords as real)];
    forall i | 0 <= i < |p'|
      ensures p'[i].0 in wordCount && p'[i].1 == wordCount[p'[i].0] as real / totalWords as real
    {
      if i < |p| { assert p'[i] == p[i]; }
    }
  }

  /** `p` holds each key of `wordCount` outside `rest` once, with its
      count divided by `totalWords`. */
  predicate FrequenciesSoFar(wordCount: map<string, nat>, totalWords: nat, rest: set<string>, p: Profile) {
    && rest <= wordCount.Keys
    && (|wordCount| > 0 ==> totalWords > 0)
    && ScaledEntries(wordCount, totalWords, p)
    && DistinctTerms(p)
    && TermSet(p) == wordCount.Keys - rest
    && |p| == |wordCount.Keys - rest|
  }

  lemma FrequenciesStep(wordCount: map<string, nat>, totalWords: nat, rest: set<string>, p: Profile, term: string)
    requires FrequenciesSoFar(wordCount, totalWords, rest, p)
    requires term in rest
    ensures FrequenciesSoFar(wordCount, totalWords, rest - {term},
                             p + [(term, wordCount[term] as real / totalWords as real)])
  {
    var e := (term, wordCount[term] as real / totalWords as real);
    AppendFresh(p, e);
    ScaledEntriesAppend(wordCount, totalWords, p, term);
    var done := wordCount.Keys - rest;
    assert wordCount.Keys - (rest - {term}) == done + {term};
    assert |done + {term}| == |done| + 1;
  }

  /** The loop at project.cpp:61-64: one entry per key of `wordCount`,
      holding its count divided by `totalWords`. The keys are taken in an
      arbitrary order. */
  method Frequencies(wordCount: map<string, nat>, totalWords: nat) returns (normalizedFrequencies: Profile)
    requires |wordCount| > 0 ==> totalWords > 0
    ensures ScaledEntries(wordCount, totalWords, normalizedFrequencies)
    ensures DistinctTerms(normalizedFrequencies)
    ensures TermSet(normalizedFrequencies) == wordCount.Keys
    ensures |normalizedFrequencies| == |wordCount|
  {
    normalizedFrequencies := [];
    var rest := wordCount.Keys;
    while rest != {}
      invariant FrequenciesSoFar(wordCount, totalWords, rest, normalizedFrequencies)
      decreases rest
    {
      var term :| term in rest;
      FrequenciesStep(wordCount, totalWords, rest, normalizedFrequencies, term);
      normalizedFrequencies := normalizedFrequencies + [(term, wordCount[term] as real / totalWords as real)];
      rest := rest - {term};
    }
  }

  /** What `Frequencies` builds from the counts of `words` is its
      frequency list; the division is by a positive total. */
  lemma FrequenciesOfCounts(words: seq<string>, p: Profile)
    requires Total(words) > 0 || CountMap(words) == map[]
    requires ScaledEntries(CountMap(words), Total(words), p)
    requires DistinctTerms(p) && TermSet(p) == CountMap(words).Keys && |p| == |CountMap(words)|
    ensures IsFrequencyList(words, p)
  {
  }

  // ---------------------------------------------------------------------
  // Sorting and truncation (project.cpp:65-69)
  // ---------------------------------------------------------------------

  /** The order the comparator `b.second > a.second` sorts into: by
      non-decreasing frequency. */
  predicate AscendingByFrequency(p: Profile) {
    forall i, j :: 0 <= i < j < |p| ==> p[i].1 <= p[j].1
  }

  /** `x` is not above `y` in that order: its frequency is at most `y`'s. */
  predicate FreqAtMost(x: Entry, y: Entry) {
    x.1 <= y.1
  }

  /** `std::sort` with that comparator, as an insertion sort. Equal
      frequencies may end up in any order, so only sortedness and
      permutation are promised. */
  method SortByFrequency(a: array<Entry>)
    modifies a
    ensures AscendingByFrequency(a[..])
    ensures multiset(a[..]) == old(multiset(a[..]))
  {
    var i := 0;
    while i < a.Length
      invariant 0 <= i <= a.Length
      invariant forall p, q :: 0 <= p < q < i ==> FreqAtMost(a[p], a[q])
      invariant multiset(a[..]) == old(multiset(a[..]))
    {
      InsertByFrequency(a, i);
      i := i + 1;
    }
  }

  /** Moves `a[i]` left into the sorted prefix `a[..i]`, past every entry
      the comparator puts after it. */
  method InsertByFrequency(a: array<Entry>, i: nat)
    requires i < a.Length
    requires forall p, q :: 0 <= p < q < i ==> FreqAtMost(a[p], a[q])
    modifies a
    ensures forall p, q :: 0 <= p < q <= i ==> FreqAtMost(a[p], a[q])
    ensures multiset(a[..]) == old(multiset(a[..]))
  {
    var j := i;
    while j > 0 && !FreqAtMost(a[j - 1], a[j])
      invariant 0 <= j <= i
      invariant forall p, q :: 0 <= p < q <= i && p != j && q != j ==> FreqAtMost(a[p], a[q])
      invariant forall q :: j < q <= i ==> !FreqAtMost(a[q], a[j])
      invariant multiset(a[..]) == old(multiset(a[..]))
    {
      a[j - 1], a[j] := a[j], a[j - 1];
      j := j - 1;
    }
  }

  /** `resize(limit)` when the list is longer than `limit`. */
  function Truncate(p: Profile, limit: nat): (r: Profile)
    ensures |r| == Min(limit, |p|)
    ensures r == p[..|r|]
  {
    if |p| > limit then p[..limit] else p
  }

  /** What `preprocessWords` returns for `words`. */
  ghost predicate IsProfileOf(words: seq<string>, limit: nat, p: Profile) {
    // `limit` entries, or all the distinct terms when there are fewer
    && |p| == Min(limit, |CountMap(words)|)
    && FrequencyEntries(words, p)
    && DistinctTerms(p)
    && AscendingByFrequency(p)
    && KeepsLeastFrequent(words, p)
    // a document with at most `limit` distinct terms keeps them all
    && (|CountMap(words)| <= limit ==> TermSet(p) == CountMap(words).Keys)
  }

  /** A counted term left out is at least as frequent as every term kept. */
  ghost predicate KeepsLeastFrequent(words: seq<string>, p: Profile) {
    forall t :: t in CountMap(words) && t !in TermSet(p) ==>
      forall i :: 0 <= i < |p| ==> p[i].1 <= Freq(words, t)
  }

  /** Reordering a frequency list leaves a frequency list. */
  lemma PermutedFrequencyList(words: seq<string>, freqs: Profile, sorted: Profile)
    requires IsFrequencyList(words, freqs)
    requires multiset(sorted) == multiset(freqs)
    ensures IsFrequencyList(words, sorted)
  {
    var m := CountMap(words);
    assert |sorted| == |multiset(sorted)| == |freqs|;
    forall i | 0 <= i < |sorted|
      ensures sorted[i].0 in m && sorted[i].1 == Freq(words, sorted[i].0)
    {
      assert sorted[i] in multiset(freqs);
      var k :| 0 <= k < |freqs| && freqs[k] == sorted[i];
    }
    forall i, j | 0 <= i < j < |sorted| ensures sorted[i].0 != sorted[j].0 {
      if sorted[i].0 == sorted[j].0 {
        Repeated(sorted, i, j);
        forall x, y | 0 <= x < y < |freqs| ensures freqs[x] != freqs[y] {
          assert freqs[x].0 != freqs[y].0;
        }
        Unique(freqs, sorted[i]);
      }
    }
    forall t | t in m.Keys ensures t in TermSet(sorted) {
      var k :| 0 <= k < |freqs| && freqs[k].0 == t;
      assert freqs[k] in multiset(sorted);
      var i :| 0 <= i < |sorted| && sorted[i] == freqs[k];
    }
  }

  /** A prefix of a list keeps its entries' properties and order. */
  lemma PrefixOfFrequencies(words: seq<string>, p: Profile, m: nat)
    requires m <= |p|
    requires FrequencyEntries(words, p) && DistinctTerms(p) && AscendingByFrequency(p)
    ensures FrequencyEntries(words, p[..m]) && DistinctTerms(p[..m]) && AscendingByFrequency(p[..m])
  {
    assert forall i :: 0 <= i < m ==> p[..m][i] == p[i];
  }

  /** Cutting a sorted frequency list drops only terms at least as
      frequent as every term kept. */
  lemma CutKeepsLeastFrequent(words: seq<string>, sorted: Profile, m: nat)
    requires IsFrequencyList(words, sorted) && AscendingByFrequency(sorted)
    requires m <= |sorted|
    ensures KeepsLeastFrequent(words, sorted[..m])
  {
    var r := sorted[..m];
    forall t | t in CountMap(words) && t !in TermSet(r)
      ensures forall i :: 0 <= i < |r| ==> r[i].1 <= Freq(words, t)
    {
      var q :| 0 <= q < |sorted| && sorted[q].0 == t;
      assert m <= q by {
        assert forall i :: 0 <= i < m ==> r[i] == sorted[i] && r[i].0 in TermSet(r);
      }
      forall i | 0 <= i < |r| ensures r[i].1 <= Freq(words, t) {
        assert r[i] == sorted[i];
      }
    }
  }

  /** The sorted and truncated frequency list is the document's profile. */
  lemma SortedTruncationIsProfile(words: seq<string>, limit: nat, sorted: Profile)
    requires IsFrequencyList(words, sorted)
    requires AscendingByFrequency(sorted)
    ensures IsProfileOf(words, limit, Truncate(sorted, limit))
  {
    var m := Min(limit, |sorted|);
    assert Truncate(sorted, limit) == sorted[..m];
    PrefixOfFrequencies(words, sorted, m);
    CutKeepsLeastFrequent(words, sorted, m);
    if |CountMap(words)| <= limit {
      assert sorted[..m] == sorted;
    }
  }

  /** The body of `preprocessWords` once the file is open: the words of
      the document are given as a sequence. */
  method Preprocess(words: seq<string>, limit: nat) returns (normalizedFrequencies: Profile)
    ensures IsProfileOf(words, limit, normalizedFrequencies)
  {
    var wordCount, totalWords := CountWords(words);
    CountMapBounds(words);
    var freqs := Frequencies(wordCount, totalWords);
    FrequenciesOfCounts(words, freqs);
    var a := new Entry[|freqs|](i requires 0 <= i < |freqs| => freqs[i]);
    assert a[..] == freqs;
    SortByFrequency(a);
    normalizedFrequencies := a[..];
    if |normalizedFrequencies| > limit {
      normalizedFrequencies := normalizedFrequencies[..limit];
    }
    PermutedFrequencyList(words, freqs, a[..]);
    SortedTruncationIsProfile(words, limit, a[..]);
  }

  /** The contents of a document file: its whitespace-separated words, or
      nothing when the file cannot be opened. */
  datatype Document = Unreadable | Readable(words: seq<string>)

  /** What `preprocessWords` returns for a document: nothing for a file
      that cannot be opened, the profile of its words otherwise. */
  ghost predicate IsDocumentProfile(doc: Document, limit: nat, p: Profile) {
    match doc
    case Unreadable => p == []
    case Readable(words) => IsProfileOf(words, limit, p)
  }

  /** `preprocessWords`: an unreadable file yields the empty list. */
  method PreprocessWords(doc: Document, limit: nat) returns (normalizedFrequencies: Profile)
    ensures IsDocumentProfile(doc, limit, normalizedFrequencies)
  {
    if doc.Unreadable? {
      return [];
    }
    normalizedFrequencies := Preprocess(doc.words, limit);
  }

  // ---------------------------------------------------------------------
  // Properties of a profile
  // ---------------------------------------------------------------------

  /** A profile has at most `limit` entries, no more than the document has
      distinct terms, no repeated term, and frequencies in (0, 1]. */
  lemma ProfileBounds(words: seq<string>, limit: nat, p: Profile)
    requires IsProfileOf(words, limit, p)
    ensures |p| <= limit && |p| <= |CountMap(words)|
    ensures forall i, j :: 0 <= i < j < |p| ==> p[i].0 != p[j].0
    ensures forall i :: 0 <= i < |p| ==> 0.0 < p[i].1 <= 1.0
  {
  }

  /** With a positive limit, the profile is empty exactly when the
      document has no accepted word. */
  lemma EmptyProfile(words: seq<string>, limit: nat, p: Profile)
    requires IsProfileOf(words, limit, p)
    ensures Total(words) == 0 ==> p == []
    ensures limit > 0 && p == [] ==> Total(words) == 0
  {
    CountMapBounds(words);
  }

  /** A profile that was not truncated sums to one. */
  lemma UntruncatedProfileSumsToOne(words: seq<string>, limit: nat, p: Profile)
    requires IsProfileOf(words, limit, p)
    requires |CountMap(words)| <= limit && Total(words) > 0
    ensures SumFreqs(p) == 1.0
  {
    SumFreqsOver(p, FreqMap(words));
    FrequencyMass(words);
  }

  /** The frequencies of any profile sum to at most one: truncation only
      drops terms. */
  lemma ProfileMassAtMostOne(words: seq<string>, limit: nat, p: Profile)
    requires IsProfileOf(words, limit, p)
    ensures 0.0 <= SumFreqs(p) <= 1.0
  {
    var fm := FreqMap(words);
    SumFreqsOver(p, fm);
    SumMapNonNegative(fm, TermSet(p));
    if Total(words) > 0 {
      SumMapSubset(fm, TermSet(p), fm.Keys);
      FrequencyMass(words);
    } else {
      CountMapBounds(words);
    }
  }
}
