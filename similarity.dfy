/** `calculateSimilarity` of project.cpp: both profiles are loaded into
    dictionaries, and for every term the two share, its frequency in the
    first profile plus its frequency in the second is added to the index. */
module Similarity {
  import opened Sums
  import opened Profiler

  // ---------------------------------------------------------------------
  // Loading a profile into a dictionary (project.cpp:78-80)
  // ---------------------------------------------------------------------

  /** The dictionary `file1Map[wf.first] = wf.second` builds, entry after
      entry: a later entry for a term overwrites an earlier one. */
  function ToMap(p: Profile): (m: map<string, real>)
    ensures m.Keys == TermSet(p)
    decreases |p|
  {
    if p == [] then map[]
    else
      var q, e := p[..|p| - 1], p[|p| - 1];
      TermSetAppend(q, e);
      assert p == q + [e];
      ToMap(q)[e.0 := e.1]
  }

  /** In a profile without repeated terms, each term maps to the
      frequency of its own entry. */
  lemma {:induction false} ToMapAt(p: Profile)
    requires DistinctTerms(p)
    ensures forall i :: 0 <= i < |p| ==> ToMap(p)[p[i].0] == p[i].1
    decreases |p|
  {
    if p != [] {
      var q, e := p[..|p| - 1], p[|p| - 1];
      assert DistinctTerms(q) by {
        forall i, j | 0 <= i < j < |q| ensures q[i].0 != q[j].0 {
          assert q[i] == p[i] && q[j] == p[j];
        }
      }
      ToMapAt(q);
      forall i | 0 <= i < |p| ensures ToMap(p)[p[i].0] == p[i].1 {
        if i < |q| {
          assert p[i] == q[i];
          assert p[i].0 != e.0;
        }
      }
    }
  }

  /** Every value of the dictionary is the frequency of some entry. */
  lemma {:induction false} ToMapValues(p: Profile)
    ensures forall t :: t in ToMap(p) ==> exists i :: 0 <= i < |p| && p[i] == (t, ToMap(p)[t])
    decreases |p|
  {
    if p != [] {
      var q, e := p[..|p| - 1], p[|p| - 1];
      ToMapValues(q);
      forall t | t in ToMap(p) ensures exists i :: 0 <= i < |p| && p[i] == (t, ToMap(p)[t]) {
        if t == e.0 {
          assert p[|p| - 1] == (t, ToMap(p)[t]);
        } else {
          var i :| 0 <= i < |q| && q[i] == (t, ToMap(q)[t]);
          assert p[i] == q[i];
        }
      }
    }
  }

  /** The loading loop. */
  method ToDictionary(freqs: Profile) returns (m: map<string, real>)
    ensures m == ToMap(freqs)
  {
    m := map[];
    var i := 0;
    while i < |freqs|
      invariant 0 <= i <= |freqs|
      invariant m == ToMap(freqs[..i])
    {
      assert freqs[..i + 1][..i] == freqs[..i];
      m := m[freqs[i].0 := freqs[i].1];
      i := i + 1;
    }
    assert freqs[..|freqs|] == freqs;
  }

  // ---------------------------------------------------------------------
  // The similarity index (project.cpp:82-90)
  // ---------------------------------------------------------------------

  /** For each term of both dictionaries, the sum of its two values. */
  function Shared(m1: map<string, real>, m2: map<string, real>): (r: map<string, real>)
    ensures r.Keys == m1.Keys * m2.Keys
    ensures forall t :: t in r ==> r[t] == m1[t] + m2[t]
  {
    map t | t in m1.Keys * m2.Keys :: m1[t] + m2[t]
  }

  /** The similarity index of two profiles: summed over the terms they
      share, the frequency in the first plus the frequency in the second. */
  ghost function Score(p1: Profile, p2: Profile): real {
    var m1, m2 := ToMap(p1), ToMap(p2);
    SumMap(Shared(m1, m2), m1.Keys * m2.Keys)
  }

  /** `calculateSimilarity`. The first dictionary is walked in an
      arbitrary order; the sum does not depend on it. */
  method CalculateSimilarity(file1Freqs: Profile, file2Freqs: Profile) returns (similarityIndex: real)
    ensures similarityIndex == Score(file1Freqs, file2Freqs)
  {
    var file1Map := ToDictionary(file1Freqs);
    var file2Map := ToDictionary(file2Freqs);
    ghost var shared := Shared(file1Map, file2Map);
    similarityIndex := 0.0;
    var rest := file1Map.Keys;
    while rest != {}
      invariant rest <= file1Map.Keys
      invariant similarityIndex == SumMap(shared, (file1Map.Keys - rest) * file2Map.Keys)
      decreases rest
    {
      var term :| term in rest;
      ghost var done := (file1Map.Keys - rest) * file2Map.Keys;
      if term in file2Map {
        SumMapInsert(shared, done, term);
        similarityIndex := similarityIndex + (file1Map[term] + file2Map[term]);
        assert (file1Map.Keys - (rest - {term})) * file2Map.Keys == done + {term};
      } else {
        assert (file1Map.Keys - (rest - {term})) * file2Map.Keys == done;
      }
      rest := rest - {term};
    }
    assert file1Map.Keys - rest == file1Map.Keys;
  }

  // ---------------------------------------------------------------------
  // Properties of the index
  // ---------------------------------------------------------------------

  /** The index does not depend on the order of its arguments, so the
      matrix built from it is symmetric. */
  lemma ScoreSymmetric(p1: Profile, p2: Profile)
    ensures Score(p1, p2) == Score(p2, p1)
  {
    var m1, m2 := ToMap(p1), ToMap(p2);
    assert m1.Keys * m2.Keys == m2.Keys * m1.Keys;
    SumMapAgree(Shared(m1, m2), Shared(m2, m1), m1.Keys * m2.Keys);
  }

  /** Profiles with positive frequencies have a positive index exactly
      when they share a term, and index zero exactly when they do not. */
  lemma ScoreZeroIff(p1: Profile, p2: Profile)
    requires forall i :: 0 <= i < |p1| ==> p1[i].1 > 0.0
    requires forall i :: 0 <= i < |p2| ==> p2[i].1 > 0.0
    ensures Score(p1, p2) >= 0.0
    ensures Score(p1, p2) == 0.0 <==> TermSet(p1) !! TermSet(p2)
  {
    var m1, m2 := ToMap(p1), ToMap(p2);
    var s := Shared(m1, m2);
    ToMapValues(p1);
    ToMapValues(p2);
    forall t | t in s ensures s[t] > 0.0 {
      var i :| 0 <= i < |p1| && p1[i] == (t, m1[t]);
      var j :| 0 <= j < |p2| && p2[j] == (t, m2[t]);
    }
    if m1.Keys * m2.Keys == {} {
      assert TermSet(p1) !! TermSet(p2);
    } else {
      SumMapPositive(s, m1.Keys * m2.Keys);
      var t :| t in m1.Keys * m2.Keys;
      assert t in TermSet(p1) && t in TermSet(p2);
    }
  }

  /** Comparing a profile with itself counts every frequency twice. */
  lemma ScoreSelf(p: Profile)
    requires DistinctTerms(p)
    ensures Score(p, p) == 2.0 * SumFreqs(p)
  {
    var m := ToMap(p);
    ToMapAt(p);
    SumFreqsOver(p, m);
    assert m.Keys * m.Keys == m.Keys;
    SumMapAdd(Shared(m, m), m, m, m.Keys);
  }

  /** A document with at least one accepted word and no more distinct
      terms than the profile limit has index 2 with itself. */
  lemma IdenticalDocuments(words: seq<string>, limit: nat, p: Profile)
    requires IsProfileOf(words, limit, p)
    requires |CountMap(words)| <= limit && Total(words) > 0
    ensures Score(p, p) == 2.0
  {
    ScoreSelf(p);
    UntruncatedProfileSumsToOne(words, limit, p);
  }

  /** The index of two profiles lies between 0 and 2. */
  lemma ScoreBounds(words1: seq<string>, words2: seq<string>, limit: nat, p1: Profile, p2: Profile)
    requires IsProfileOf(words1, limit, p1) && IsProfileOf(words2, limit, p2)
    ensures 0.0 <= Score(p1, p2) <= 2.0
  {
    var m1, m2 := ToMap(p1), ToMap(p2);
    var both := m1.Keys * m2.Keys;
    ProfileDictionary(words1, limit, p1);
    ProfileDictionary(words2, limit, p2);
    SumMapAdd(Shared(m1, m2), m1, m2, both);
    SumMapNonNegative(m1, both);
    SumMapNonNegative(m2, both);
    SumMapSubset(m1, both, m1.Keys);
    SumMapSubset(m2, both, m2.Keys);
  }

  /** The dictionary of a profile holds non-negative values summing to at
      most one. */
  lemma ProfileDictionary(words: seq<string>, limit: nat, p: Profile)
    requires IsProfileOf(words, limit, p)
    ensures forall t :: t in ToMap(p) ==> ToMap(p)[t] >= 0.0
    ensures SumMap(ToMap(p), ToMap(p).Keys) <= 1.0
  {
    var m := ToMap(p);
    ProfileBounds(words, limit, p);
    ToMapValues(p);
    forall t | t in m ensures m[t] >= 0.0 {
      var i :| 0 <= i < |p| && p[i] == (t, m[t]);
    }
    ToMapAt(p);
    SumFreqsOver(p, m);
    ProfileMassAtMostOne(words, limit, p);
  }

  /** An empty profile is similar to nothing. */
  lemma ScoreEmptyProfile(q: Profile)
    ensures Score([], q) == 0.0 && Score(q, []) == 0.0
  {
    assert ToMap([]) == map[];
    assert ToMap([]).Keys * ToMap(q).Keys == {};
    ScoreSymmetric([], q);
  }

  /** A document without an accepted word is similar to nothing. */
  lemma EmptyDocument(words: seq<string>, limit: nat, p: Profile, q: Profile)
    requires IsProfileOf(words, limit, p) && Total(words) == 0
    ensures Score(p, q) == 0.0 && Score(q, p) == 0.0
  {
    EmptyProfile(words, limit, p);
    ScoreEmptyProfile(q);
  }

  /** The index of two document profiles lies between 0 and 2, and is 0
      for a document that cannot be read. */
  lemma DocumentScoreBounds(d1: Document, d2: Document, limit: nat, p1: Profile, p2: Profile)
    requires IsDocumentProfile(d1, limit, p1) && IsDocumentProfile(d2, limit, p2)
    ensures 0.0 <= Score(p1, p2) <= 2.0
    ensures d1.Unreadable? || d2.Unreadable? ==> Score(p1, p2) == 0.0
  {
    if d1.Unreadable? {
      ScoreEmptyProfile(p2);
    } else if d2.Unreadable? {
      ScoreEmptyProfile(p1);
    } else {
      ScoreBounds(d1.words, d2.words, limit, p1, p2);
    }
  }
}
