/** The driver of project.cpp (`main`): every document is profiled, every
    pair of documents is scored into a symmetric matrix, the pairs above
    the diagonal are listed as (index, first, second) triples, sorted with
    `std::greater`, and the first `k` are reported. The number of documents
    and `k` are parameters here. */
module Ranker {
  import opened Profiler
  import opened Similarity
  import opened Multisets

  // ---------------------------------------------------------------------
  // Profiling every document (project.cpp:101-106)
  // ---------------------------------------------------------------------

  /** One profile per document, in document order. */
  method PreprocessAll(documents: seq<Document>, limit: nat) returns (normalizedWordCounts: seq<Profile>)
    ensures |normalizedWordCounts| == |documents|
    ensures forall i :: 0 <= i < |documents| ==> IsDocumentProfile(documents[i], limit, normalizedWordCounts[i])
  {
    normalizedWordCounts := [];
    var i := 0;
    while i < |documents|
      invariant 0 <= i <= |documents|
      invariant |normalizedWordCounts| == i
      invariant forall r :: 0 <= r < i ==> IsDocumentProfile(documents[r], limit, normalizedWordCounts[r])
    {
      var profile := PreprocessWords(documents[i], limit);
      normalizedWordCounts := normalizedWordCounts + [profile];
      i := i + 1;
    }
  }

  // ---------------------------------------------------------------------
  // The similarity matrix (project.cpp:98, 109-116)
  // ---------------------------------------------------------------------

  /** A cell the loops have filled once row `i` has been done up to column
      `j` (exclusive): a cell off the diagonal whose smaller index is below
      `i`, or is `i` with the larger index below `j`. */
  predicate Done(i: int, j: int, r: int, c: int) {
    r != c && (Min(r, c) < i || (Min(r, c) == i && Max(r, c) < j))
  }

  function Max(a: int, b: int): int {
    if a < b then b else a
  }

  /** The value the loops store at cell (r, c): the index of the two
      documents, computed with the smaller index first. */
  ghost function Cell(profiles: seq<Profile>, r: nat, c: nat): real
    requires r < |profiles| && c < |profiles|
  {
    if r == c then 0.0
    else if r < c then Score(profiles[r], profiles[c])
    else Score(profiles[c], profiles[r])
  }

  /** The matrix after row `i` has been done up to column `j`. */
  ghost predicate FilledUpTo(matrix: array2<real>, profiles: seq<Profile>, i: int, j: int)
    reads matrix
  {
    && matrix.Length0 == |profiles| && matrix.Length1 == |profiles|
    && forall r, c :: 0 <= r < |profiles| && 0 <= c < |profiles| ==>
         matrix[r, c] == (if Done(i, j, r, c) then Cell(profiles, r, c) else 0.0)
  }

  /** The matrix of pairwise indices, zero on the diagonal. */
  method SimilarityMatrix(profiles: seq<Profile>) returns (similarityMatrix: array2<real>)
    ensures fresh(similarityMatrix)
    ensures similarityMatrix.Length0 == |profiles| && similarityMatrix.Length1 == |profiles|
    ensures forall r, c :: 0 <= r < |profiles| && 0 <= c < |profiles| ==>
      similarityMatrix[r, c] == (if r == c then 0.0 else Score(profiles[r], profiles[c]))
  {
    var numFiles := |profiles|;
    similarityMatrix := new real[numFiles, numFiles]((r, c) => 0.0);
    var i := 0;
    while i < numFiles
      invariant 0 <= i <= numFiles
      invariant FilledUpTo(similarityMatrix, profiles, i, i + 1)
    {
      FillRow(similarityMatrix, profiles, i);
      assert forall r, c :: 0 <= r < numFiles && 0 <= c < numFiles ==> Done(i, numFiles, r, c) == Done(i + 1, i + 2, r, c);
      i := i + 1;
    }
    forall r, c | 0 <= r < numFiles && 0 <= c < numFiles && r != c
      ensures Cell(profiles, r, c) == Score(profiles[r], profiles[c])
    {
      ScoreSymmetric(profiles[r], profiles[c]);
    }
  }

  /** The inner loop for row `i`: cells (i, j) and (j, i) for every j > i. */
  method FillRow(similarityMatrix: array2<real>, profiles: seq<Profile>, i: nat)
    requires i < |profiles|
    requires FilledUpTo(similarityMatrix, profiles, i, i + 1)
    modifies similarityMatrix
    ensures FilledUpTo(similarityMatrix, profiles, i, |profiles|)
  {
    var numFiles := |profiles|;
    var j := i + 1;
    while j < numFiles
      invariant i + 1 <= j <= numFiles
      invariant FilledUpTo(similarityMatrix, profiles, i, j)
    {
      var similarity := CalculateSimilarity(profiles[i], profiles[j]);
      label before:
      similarityMatrix[j, i] := similarity;
      similarityMatrix[i, j] := similarity;
      forall r, c | 0 <= r < numFiles && 0 <= c < numFiles
        ensures similarityMatrix[r, c] == (if Done(i, j + 1, r, c) then Cell(profiles, r, c) else 0.0)
      {
        if !((r == i && c == j) || (r == j && c == i)) {
          assert similarityMatrix[r, c] == old@before(similarityMatrix[r, c]);
        }
      }
      j := j + 1;
    }
  }

  // ---------------------------------------------------------------------
  // Listing the pairs (project.cpp:119-126)
  // ---------------------------------------------------------------------

  /** An entry of the list: the index of a pair, then its two documents. */
  type Triple = (real, int, int)

  /** How many pairs come before row `i`: rows 0 .. i-1 of an
      `n`-document matrix hold n-1, n-2, ... pairs. */
  function RowStart(n: nat, i: nat): nat
    requires i <= n
  {
    if i == 0 then 0 else RowStart(n, i - 1) + (n - i)
  }

  /** Where pair (i, j), i < j, lands in the list. */
  function PairIndex(n: nat, i: nat, j: nat): nat
    requires i < j <= n
  {
    RowStart(n, i) + (j - i - 1)
  }

  /** The number of pairs before row `i`, in closed form. */
  lemma {:induction false} RowStartClosed(n: nat, i: nat)
    requires i <= n
    ensures 2 * RowStart(n, i) == i * (2 * n - i - 1)
  {
    if i > 0 {
      RowStartClosed(n, i - 1);
      assert (i - 1) * (2 * n - (i - 1) - 1) + 2 * (n - i) == i * (2 * n - i - 1);
    }
  }

  /** Later rows start later. */
  lemma {:induction false} RowStartMonotone(n: nat, i: nat, k: nat)
    requires i <= k <= n
    ensures RowStart(n, i) <= RowStart(n, k)
    decreases k - i
  {
    if i < k {
      RowStartMonotone(n, i, k - 1);
    }
  }

  /** Pair (i, j) lies inside row i and before every later row. */
  lemma PairIndexBounds(n: nat, i: nat, j: nat, k: nat)
    requires i < j < n && i < k <= n
    ensures RowStart(n, i) <= PairIndex(n, i, j) < RowStart(n, k)
  {
    RowStartMonotone(n, i + 1, k);
  }

  /** All n(n-1)/2 pairs fill the list. */
  lemma PairCount(n: nat)
    ensures RowStart(n, n) == n * (n - 1) / 2
  {
    RowStartClosed(n, n);
  }

  /** (i, j) comes before (r, c): by first document, then by second. */
  predicate IndexLess(i: int, j: int, r: int, c: int) {
    i < r || (i == r && j < c)
  }

  /** The pair list built so far, up to (exclusive) pair (i, j). */
  ghost predicate ListedUpTo(matrix: array2<real>, pairs: seq<Triple>, i: nat, j: nat)
    reads matrix
    requires matrix.Length0 == matrix.Length1 && i <= j <= matrix.Length0
  {
    var n := matrix.Length0;
    && |pairs| == (if i == n then RowStart(n, n) else RowStart(n, i) + (j - i - 1))
    && (forall q :: 0 <= q < |pairs| ==>
          0 <= pairs[q].1 < pairs[q].2 < n && IndexLess(pairs[q].1, pairs[q].2, i, j) &&
          pairs[q].0 == matrix[pairs[q].1, pairs[q].2])
    && (forall q, q' :: 0 <= q < q' < |pairs| ==> IndexLess(pairs[q].1, pairs[q].2, pairs[q'].1, pairs[q'].2))
    && (forall r, c :: 0 <= r < c < n && IndexLess(r, c, i, j) ==>
          PairIndex(n, r, c) < |pairs| && pairs[PairIndex(n, r, c)] == (matrix[r, c], r, c))
  }

  /** The list of all pairs above the diagonal, row by row. */
  method ListPairs(similarityMatrix: array2<real>) returns (similarities: seq<Triple>)
    requires similarityMatrix.Length0 == similarityMatrix.Length1
    ensures var n := similarityMatrix.Length0;
      && |similarities| == n * (n - 1) / 2
      && (forall q :: 0 <= q < |similarities| ==>
            0 <= similarities[q].1 < similarities[q].2 < n &&
            similarities[q].0 == similarityMatrix[similarities[q].1, similarities[q].2])
      && (forall q, q' :: 0 <= q < q' < |similarities| ==>
            IndexLess(similarities[q].1, similarities[q].2, similarities[q'].1, similarities[q'].2))
      && (forall r, c :: 0 <= r < c < n ==>
            PairIndex(n, r, c) < |similarities| &&
            similarities[PairIndex(n, r, c)] == (similarityMatrix[r, c], r, c))
  {
    var numFiles := similarityMatrix.Length0;
    similarities := [];
    var i := 0;
    while i < numFiles
      invariant 0 <= i <= numFiles
      invariant ListedUpTo(similarityMatrix, similarities, i, if i == numFiles then i else i + 1)
    {
      similarities := ListRow(similarityMatrix, similarities, i);
      i := i + 1;
    }
    PairCount(numFiles);
    forall r, c | 0 <= r < c < numFiles ensures PairIndex(numFiles, r, c) < |similarities| {
      PairIndexBounds(numFiles, r, c, numFiles);
    }
  }

  /** The inner loop for row `i`. */
  method ListRow(similarityMatrix: array2<real>, pairs: seq<Triple>, i: nat) returns (similarities: seq<Triple>)
    requires similarityMatrix.Length0 == similarityMatrix.Length1 && i < similarityMatrix.Length0
    requires ListedUpTo(similarityMatrix, pairs, i, i + 1)
    ensures var n := similarityMatrix.Length0;
      ListedUpTo(similarityMatrix, similarities, i + 1, if i + 1 == n then n else i + 2)
  {
    var numFiles := similarityMatrix.Length0;
    similarities := pairs;
    var j := i + 1;
    while j < numFiles
      invariant i + 1 <= j <= numFiles
      invariant ListedUpTo(similarityMatrix, similarities, i, j)
    {
      ListStep(similarityMatrix, similarities, i, j);
      similarities := similarities + [(similarityMatrix[i, j], i, j)];
      j := j + 1;
    }
    RowDone(similarityMatrix, similarities, i);
  }

  /** Appending pair (i, j) moves the list on to (i, j + 1). */
  lemma ListStep(matrix: array2<real>, pairs: seq<Triple>, i: nat, j: nat)
    requires matrix.Length0 == matrix.Length1 && i < j < matrix.Length0
    requires ListedUpTo(matrix, pairs, i, j)
    ensures ListedUpTo(matrix, pairs + [(matrix[i, j], i, j)], i, j + 1)
  {
    var n := matrix.Length0;
    var pairs' := pairs + [(matrix[i, j], i, j)];
    forall r, c | 0 <= r < c < n && IndexLess(r, c, i, j + 1)
      ensures PairIndex(n, r, c) < |pairs'| && pairs'[PairIndex(n, r, c)] == (matrix[r, c], r, c)
    {
      if r < i {
        PairIndexBounds(n, r, c, i);
      }
    }
  }

  /** A finished row `i` is the start of row `i + 1`. */
  lemma RowDone(matrix: array2<real>, pairs: seq<Triple>, i: nat)
    requires matrix.Length0 == matrix.Length1 && i < matrix.Length0
    requires ListedUpTo(matrix, pairs, i, matrix.Length0)
    ensures var n := matrix.Length0;
      ListedUpTo(matrix, pairs, i + 1, if i + 1 == n then n else i + 2)
  {
    var n := matrix.Length0;
    assert RowStart(n, i + 1) == RowStart(n, i) + (n - i - 1);
  }

  // ---------------------------------------------------------------------
  // Sorting with std::greater (project.cpp:129)
  // ---------------------------------------------------------------------

  /** `std::greater` on `tuple<double, int, int>`: lexicographic, by
      index, then first document, then second document. */
  predicate Greater(x: Triple, y: Triple) {
    x.0 > y.0 || (x.0 == y.0 && (x.1 > y.1 || (x.1 == y.1 && x.2 > y.2)))
  }

  /** `Greater` is a strict total order. */
  lemma GreaterIsStrictTotalOrder(x: Triple, y: Triple, z: Triple)
    ensures !Greater(x, x)
    ensures Greater(x, y) ==> !Greater(y, x)
    ensures Greater(x, y) && Greater(y, z) ==> Greater(x, z)
    ensures x == y || Greater(x, y) || Greater(y, x)
  {
  }

  lemma NeitherGreater(x: Triple, y: Triple)
    requires !Greater(x, y) && !Greater(y, x)
    ensures x == y
  {
  }

  /** The order the sort leaves: no entry is greater than one before it. */
  predicate Descending(s: seq<Triple>) {
    forall p, q :: 0 <= p < q < |s| ==> !Greater(s[q], s[p])
  }

  /** `std::sort` with `std::greater`, as an insertion sort. */
  method SortDescending(a: array<Triple>)
    modifies a
    ensures Descending(a[..])
    ensures multiset(a[..]) == old(multiset(a[..]))
  {
    var i := 0;
    while i < a.Length
      invariant 0 <= i <= a.Length
      invariant forall p, q :: 0 <= p < q < i ==> !Greater(a[q], a[p])
      invariant multiset(a[..]) == old(multiset(a[..]))
    {
      InsertDescending(a, i);
      i := i + 1;
    }
  }

  /** Moves `a[i]` left into the sorted prefix `a[..i]`. */
  method InsertDescending(a: array<Triple>, i: nat)
    requires i < a.Length
    requires forall p, q :: 0 <= p < q < i ==> !Greater(a[q], a[p])
    modifies a
    ensures forall p, q :: 0 <= p < q <= i ==> !Greater(a[q], a[p])
    ensures multiset(a[..]) == old(multiset(a[..]))
  {
    var j := i;
    while j > 0 && Greater(a[j], a[j - 1])
      invariant 0 <= j <= i
      invariant forall p, q :: 0 <= p < q <= i && p != j && q != j ==> !Greater(a[q], a[p])
      invariant forall q :: j < q <= i ==> Greater(a[j], a[q])
      invariant multiset(a[..]) == old(multiset(a[..]))
    {
      a[j - 1], a[j] := a[j], a[j - 1];
      j := j - 1;
    }
  }

  // ---------------------------------------------------------------------
  // The reported pairs (project.cpp:132-137)
  // ---------------------------------------------------------------------

  /** Every entry is a pair of documents with its index. */
  ghost predicate ReportsPairs(profiles: seq<Profile>, top: seq<Triple>) {
    forall t :: 0 <= t < |top| ==>
      0 <= top[t].1 < top[t].2 < |profiles| &&
      top[t].0 == Score(profiles[top[t].1], profiles[top[t].2])
  }

  /** Pair (i, j) is among the entries. */
  predicate Reported(top: seq<Triple>, i: int, j: int) {
    exists t :: 0 <= t < |top| && top[t].1 == i && top[t].2 == j
  }

  /** Every pair not reported is below every pair reported. */
  ghost predicate LeftOutBelow(profiles: seq<Profile>, top: seq<Triple>) {
    forall i, j :: 0 <= i < j < |profiles| && !Reported(top, i, j) ==>
      forall t :: 0 <= t < |top| ==> Greater(top[t], (Score(profiles[i], profiles[j]), i, j))
  }

  /** What the driver reports for `profiles`: the `k` pairs with the
      greatest triples (all pairs when there are fewer), greatest first,
      each with its documents' index. */
  ghost predicate IsRanking(profiles: seq<Profile>, k: nat, top: seq<Triple>) {
    var n := |profiles|;
    && |top| == Min(k, n * (n - 1) / 2)
    && ReportsPairs(profiles, top)
    && StrictlyDescending(top)
    && LeftOutBelow(profiles, top)
  }

  /** Strictly descending by `Greater`, so also without repeats. */
  predicate StrictlyDescending(s: seq<Triple>) {
    forall p, q :: 0 <= p < q < |s| ==> Greater(s[p], s[q])
  }

  /** The pair list, as `ListPairs` builds it from the matrix. */
  ghost predicate IsPairList(profiles: seq<Profile>, pairs: seq<Triple>) {
    var n := |profiles|;
    && |pairs| == n * (n - 1) / 2
    && (forall q :: 0 <= q < |pairs| ==>
          0 <= pairs[q].1 < pairs[q].2 < n &&
          pairs[q].0 == Score(profiles[pairs[q].1], profiles[pairs[q].2]))
    && (forall q, q' :: 0 <= q < q' < |pairs| ==> IndexLess(pairs[q].1, pairs[q].2, pairs[q'].1, pairs[q'].2))
    && (forall i, j :: 0 <= i < j < n ==>
          PairIndex(n, i, j) < |pairs| && pairs[PairIndex(n, i, j)] == (Score(profiles[i], profiles[j]), i, j))
  }

  /** Every entry of a permutation of the pair list is a pair with its
      index. */
  lemma PermutedPairs(profiles: seq<Profile>, pairs: seq<Triple>, sorted: seq<Triple>)
    requires IsPairList(profiles, pairs)
    requires multiset(sorted) == multiset(pairs)
    ensures |sorted| == |pairs|
    ensures forall q :: 0 <= q < |sorted| ==>
      0 <= sorted[q].1 < sorted[q].2 < |profiles| &&
      sorted[q].0 == Score(profiles[sorted[q].1], profiles[sorted[q].2])
    ensures forall q, q' :: 0 <= q < q' < |sorted| ==> sorted[q] != sorted[q']
  {
    assert |sorted| == |multiset(sorted)| == |pairs|;
    forall q | 0 <= q < |sorted|
      ensures 0 <= sorted[q].1 < sorted[q].2 < |profiles|
      ensures sorted[q].0 == Score(profiles[sorted[q].1], profiles[sorted[q].2])
    {
      assert sorted[q] in multiset(pairs);
      var x :| 0 <= x < |pairs| && pairs[x] == sorted[q];
    }
    forall x, y | 0 <= x < y < |pairs| ensures pairs[x] != pairs[y] {
      assert IndexLess(pairs[x].1, pairs[x].2, pairs[y].1, pairs[y].2);
    }
    PermutationUnique(pairs, sorted);
  }

  /** A pair that is not among the first `m` entries of the sorted list is
      below each of them. */
  lemma LeftOutIsBelow(profiles: seq<Profile>, pairs: seq<Triple>, sorted: seq<Triple>, m: nat, i: nat, j: nat)
    requires IsPairList(profiles, pairs)
    requires multiset(sorted) == multiset(pairs) && Descending(sorted)
    requires m <= |sorted| && i < j < |profiles|
    requires !Reported(sorted[..m], i, j)
    ensures forall t :: 0 <= t < m ==> Greater(sorted[t], (Score(profiles[i], profiles[j]), i, j))
  {
    var e := (Score(profiles[i], profiles[j]), i, j);
    assert pairs[PairIndex(|profiles|, i, j)] == e;
    assert e in multiset(sorted);
    var q :| 0 <= q < |sorted| && sorted[q] == e;
    forall t | 0 <= t < m ensures Greater(sorted[t], e) {
      assert sorted[..m][t] == sorted[t];
      assert (sorted[t].1, sorted[t].2) != (i, j);
      GreaterIsStrictTotalOrder(sorted[t], e, e);
    }
  }

  /** The first `m` entries of a descending permutation of the pair list
      are strictly descending, since no pair occurs twice. */
  lemma SortedPrefixStrictlyDescending(profiles: seq<Profile>, pairs: seq<Triple>, sorted: seq<Triple>, m: nat)
    requires IsPairList(profiles, pairs)
    requires multiset(sorted) == multiset(pairs) && Descending(sorted)
    requires m <= |sorted|
    ensures StrictlyDescending(sorted[..m])
  {
    PermutedPairs(profiles, pairs, sorted);
    forall s, t | 0 <= s < t < m ensures Greater(sorted[s], sorted[t]) {
      GreaterIsStrictTotalOrder(sorted[s], sorted[t], sorted[t]);
    }
  }

  /** Sorting the pair list and keeping its first `k` entries gives the
      ranking. */
  lemma SortedPairsRank(profiles: seq<Profile>, pairs: seq<Triple>, sorted: seq<Triple>, k: nat)
    requires IsPairList(profiles, pairs)
    requires multiset(sorted) == multiset(pairs) && Descending(sorted)
    ensures IsRanking(profiles, k, sorted[..Min(k, |sorted|)])
  {
    var m := Min(k, |sorted|);
    PermutedPairs(profiles, pairs, sorted);
    assert ReportsPairs(profiles, sorted[..m]) by {
      forall t | 0 <= t < m ensures sorted[..m][t] == sorted[t] { }
    }
    SortedPrefixStrictlyDescending(profiles, pairs, sorted, m);
    forall i, j | 0 <= i < j < |profiles| && !Reported(sorted[..m], i, j)
      ensures forall t :: 0 <= t < m ==> Greater(sorted[..m][t], (Score(profiles[i], profiles[j]), i, j))
    {
      LeftOutIsBelow(profiles, pairs, sorted, m, i, j);
    }
  }

  /** The body of `main` without its file names and printing: the profiles
      of the documents and the pairs reported. */
  method CompareCorpus(documents: seq<Document>, limit: nat, k: nat)
      returns (normalizedWordCounts: seq<Profile>, top: seq<Triple>)
    ensures |normalizedWordCounts| == |documents|
    ensures forall i :: 0 <= i < |documents| ==> IsDocumentProfile(documents[i], limit, normalizedWordCounts[i])
    ensures IsRanking(normalizedWordCounts, k, top)
  {
    normalizedWordCounts := PreprocessAll(documents, limit);
    var similarityMatrix := SimilarityMatrix(normalizedWordCounts);
    var similarities := ListPairs(similarityMatrix);
    assert IsPairList(normalizedWordCounts, similarities);
    var a := new Triple[|similarities|](q requires 0 <= q < |similarities| => similarities[q]);
    assert a[..] == similarities;
    SortDescending(a);
    top := a[..Min(k, a.Length)];
    SortedPairsRank(normalizedWordCounts, similarities, a[..], k);
  }

  /** Every entry of `a` that `b` lacks is below every entry of `b`. */
  predicate Dominates(b: seq<Triple>, a: seq<Triple>) {
    forall x :: x in a && x !in b ==> forall u :: 0 <= u < |b| ==> Greater(b[u], x)
  }

  /** Where two such lists first differ, the first cannot hold the
      greater entry: that entry would be missing from the second, and so
      below the second's entry at that place. */
  lemma NotGreaterAt(a: seq<Triple>, b: seq<Triple>, t: nat)
    requires StrictlyDescending(a) && StrictlyDescending(b) && Dominates(b, a)
    requires t < |a| && t < |b| && forall s :: 0 <= s < t ==> a[s] == b[s]
    ensures !Greater(a[t], b[t])
  {
    var x, y := a[t], b[t];
    if Greater(x, y) {
      forall u | 0 <= u < |b| ensures b[u] != x {
        if u < t {
          assert b[u] == a[u];
          GreaterIsStrictTotalOrder(a[u], x, x);
        } else if u == t {
          GreaterIsStrictTotalOrder(x, y, y);
        } else {
          GreaterIsStrictTotalOrder(x, y, b[u]);
        }
      }
      assert x in a && x !in b;
      assert Greater(y, x);
      GreaterIsStrictTotalOrder(x, y, y);
      assert false;
    }
  }

  /** Two such lists of equal length agree on their first `t` entries. */
  lemma {:induction false} AgreeUpTo(a: seq<Triple>, b: seq<Triple>, t: nat)
    requires StrictlyDescending(a) && StrictlyDescending(b)
    requires Dominates(b, a) && Dominates(a, b)
    requires t <= |a| == |b|
    ensures forall s :: 0 <= s < t ==> a[s] == b[s]
  {
    if t > 0 {
      AgreeUpTo(a, b, t - 1);
      NotGreaterAt(a, b, t - 1);
      NotGreaterAt(b, a, t - 1);
      NeitherGreater(a[t - 1], b[t - 1]);
    }
  }

  /** An entry of one ranking that another ranking of the same profiles
      lacks is below all of the other's entries. */
  lemma RankingDominates(profiles: seq<Profile>, k: nat, top1: seq<Triple>, top2: seq<Triple>)
    requires IsRanking(profiles, k, top1) && IsRanking(profiles, k, top2)
    ensures Dominates(top2, top1)
  {
    forall x | x in top1 && x !in top2 ensures forall u :: 0 <= u < |top2| ==> Greater(top2[u], x) {
      var s :| 0 <= s < |top1| && top1[s] == x;
      forall u | 0 <= u < |top2| ensures !(top2[u].1 == x.1 && top2[u].2 == x.2) {
        assert top2[u] != x;
      }
      assert !Reported(top2, x.1, x.2);
    }
  }

  /** The reported pairs are fully determined by the profiles and `k`,
      although `std::sort` is not stable: the triples are all distinct. */
  lemma RankingIsUnique(profiles: seq<Profile>, k: nat, top1: seq<Triple>, top2: seq<Triple>)
    requires IsRanking(profiles, k, top1) && IsRanking(profiles, k, top2)
    ensures top1 == top2
  {
    RankingDominates(profiles, k, top1, top2);
    RankingDominates(profiles, k, top2, top1);
    AgreeUpTo(top1, top2, |top1|);
  }

  /** Every reported index lies between 0 and 2. */
  lemma ReportedIndicesInRange(documents: seq<Document>, limit: nat, profiles: seq<Profile>, k: nat, top: seq<Triple>)
    requires |profiles| == |documents|
    requires forall i :: 0 <= i < |documents| ==> IsDocumentProfile(documents[i], limit, profiles[i])
    requires IsRanking(profiles, k, top)
    ensures forall t :: 0 <= t < |top| ==> 0.0 <= top[t].0 <= 2.0
  {
    forall t | 0 <= t < |top| ensures 0.0 <= top[t].0 <= 2.0 {
      var i, j := top[t].1, top[t].2;
      DocumentScoreBounds(documents[i], documents[j], limit, profiles[i], profiles[j]);
    }
  }
}
