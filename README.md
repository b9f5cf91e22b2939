# Book similarity, modelled in Dafny

`project.cpp` compares a corpus of text books. It profiles each book:
words are reduced to upper-case ASCII letters and digits, stop words are
dropped, and every remaining term is counted. The counts are divided by
the number of kept words, sorted by frequency and cut to 100 entries.
For every pair of books the program computes a similarity index: the sum,
over the terms both profiles contain, of the term's frequency in each. It
fills a symmetric matrix with these indices, lists the pairs above the
diagonal as `(index, first, second)` triples, sorts them with
`std::greater`, and prints the first ten.

The model has six modules, one per stage:

- `Normalizer` (`normalizer.dfy`) covers `toUpperCase`, `isAlnum` (the predicate `IsAlnum`) and the per-word cleaning loop.
- `Profiler` (`profiler.dfy`) covers `preprocessWords`: stop words, counting, relative frequencies, the sort and the cut to `limit` entries.
- `Similarity` (`similarity.dfy`) covers `calculateSimilarity`.
- `Ranker` (`ranker.dfy`) covers `main`: profiling every book, the matrix, the pair list, the sort and the reported pairs.
- `Sums` (`sums.dfy`) is the order-free sum of real values over a set of map keys that the counting and scoring loops compute.
- `Multisets` (`multisets.dfy`) holds facts about repeated elements, used to carry "no term twice" and "no pair twice" across the sorts.

Each loop of the program is a `method` with a `while` loop, and its
`ensures` ties the result to a specification function. The important
specifications are:

- `CountMap` and `Total`: the counts and the number of kept words.
- `Freq`: a term's count divided by `Total`.
- `IsProfileOf`: what a profile of a word sequence is.
- `Score`: the similarity index as a sum over the shared terms.
- `IsRanking`: what the reported pairs are.

Lemmas prove what these promise: counts are occurrence counts, the
frequencies sum to one, the index is symmetric and lies in [0, 2], and the
report is unique. The `std::sort` calls are insertion sorts on arrays,
specified as "sorted and a permutation of the input". The similarity
matrix is an `array2<real>`.

The number of books (64), the number of reported pairs (10) and the
profile limit (100) are parameters: `|documents|`, `k` and `limit`.

**Code and stated intent disagree on the profile order.** The comment at
`project.cpp:59` says the profile keeps the 100 most frequent terms. The comparator at `project.cpp:65` is
`b.second > a.second`, which sorts by increasing frequency, so
`resize(100)` keeps the 100 *least* frequent terms. The model follows the
code. `IsProfileOf` states that every term left out is at least as
frequent as every term kept, and that the profile is in ascending order.

## Model

| member | source | states |
|---|---|---|
| Normalizer.ToUpperCase | project.cpp:11-18 | lower-case ASCII letters map to the upper-case letter at the same alphabet position; every other character is unchanged; the result is never lower-case; an alphanumeric character becomes an upper-case letter or digit |
| Normalizer.Keep | project.cpp:46-49 | a character adds at most one character to the cleaned word, and adds nothing exactly when it is not an ASCII letter or digit |
| Normalizer.CleanWord | project.cpp:43-50 | the character loop produces `Clean(word)` |
| Normalizer.CleanIsTerm | project.cpp:43-50 | a cleaned word contains only upper-case letters and digits and is no longer than the word |
| Normalizer.CleanAppend | project.cpp:43-50 | cleaning a concatenation is the concatenation of the cleaned parts: characters are kept in order and independently |
| Normalizer.CleanFront | project.cpp:43-50 | cleaning `[c] + w` is `Keep(c)` followed by cleaning `w` |
| Normalizer.CleanOfTerm | project.cpp:43-50 | a word of upper-case letters and digits cleans to itself |
| Normalizer.CleanIdempotent | project.cpp:43-50 | cleaning twice is cleaning once |
| Normalizer.CleanEmptyIff | project.cpp:51 | a word cleans to the empty string exactly when it has no ASCII letter or digit, so exactly those words are skipped as empty |
| Profiler.CountMapBounds | project.cpp:51-56 | every counted term is non-empty and not a stop word, with a count between 1 and the number of kept words; no term is counted exactly when no word was kept |
| Profiler.CountMapCountsOccurrences | project.cpp:51-56 | an acceptable term is counted exactly when some word cleans to it, and its count is the number of words that clean to it |
| Profiler.CountStep | project.cpp:51-56 | a kept word adds its term to the counted terms with count old+1 and leaves every other count unchanged; a skipped word changes neither counts nor total |
| Profiler.OnlyDroppedWords | project.cpp:51-54 | if every word is empty after cleaning or a stop word, nothing is counted and the total is zero |
| Profiler.TotalIsSumOfCounts | project.cpp:55-56 | the total number of kept words is the sum of the counts |
| Profiler.CountWords | project.cpp:36-57 | the reading loop produces the counts `CountMap(words)` and the total `Total(words)` |
| Profiler.Freq | project.cpp:63 | a counted term's relative frequency lies in (0, 1] |
| Profiler.FrequencyMass | project.cpp:60-64 | when a word was kept, the relative frequencies of all counted terms sum to 1 |
| Profiler.Frequencies | project.cpp:60-64 | one entry per counted term, no term twice, each holding its count divided by the total |
| Profiler.FrequenciesOfCounts | project.cpp:60-64 | the list `Frequencies` builds from `CountWords`' result is the frequency list of the words |
| Profiler.FrequencyListSumsToOne | project.cpp:60-64 | the frequency list of a document with a kept word sums to 1 |
| Profiler.SortByFrequency | project.cpp:65 | the array ends sorted by non-decreasing frequency and is a permutation of its old contents |
| Profiler.InsertByFrequency | project.cpp:65 | one insertion step extends the sorted prefix by one and permutes the array |
| Profiler.PermutedFrequencyList | project.cpp:65 | a permutation of the frequency list is still a frequency list: the sort neither loses nor duplicates terms |
| Profiler.Truncate | project.cpp:66-69 | the cut keeps the first `min(limit, n)` entries, unchanged |
| Profiler.PrefixOfFrequencies | project.cpp:66-69 | a prefix of a sorted frequency list still holds counted terms with their frequencies, no term twice, in ascending order |
| Profiler.CutKeepsLeastFrequent | project.cpp:65-69 | cutting a sorted frequency list drops only terms at least as frequent as every term kept |
| Profiler.SortedTruncationIsProfile | project.cpp:65-69 | a sorted frequency list, cut to `limit`, is the document's profile, so every term dropped is at least as frequent as every term kept |
| Profiler.Preprocess | project.cpp:36-71 | the profile of the words, as `IsProfileOf`: `min(limit, distinct terms)` entries, each a counted term with its frequency, no term twice, ascending by frequency, no dropped term less frequent than a kept one, and all terms when there are at most `limit` distinct terms |
| Profiler.PreprocessWords | project.cpp:27-72 | an unreadable file yields the empty list; a readable one yields the profile of its words |
| Profiler.ProfileBounds | project.cpp:60-69 | a profile has at most `limit` entries and no more than the document has distinct terms, no term appears twice, and every frequency lies in (0, 1] |
| Profiler.EmptyProfile | project.cpp:51-69 | a document with no kept word has the empty profile; with a positive limit, only such a document has it |
| Profiler.UntruncatedProfileSumsToOne | project.cpp:60-69 | a profile not shortened by the cut has frequencies summing to 1 |
| Profiler.ProfileMassAtMostOne | project.cpp:60-69 | the frequencies of any profile sum to between 0 and 1 |
| Similarity.ToMap | project.cpp:78-80 | the dictionary built from a profile has exactly the profile's terms as keys |
| Similarity.ToMapAt | project.cpp:78-80 | for a profile with distinct terms, each term maps to its own entry's frequency |
| Similarity.ToMapValues | project.cpp:78-80 | every dictionary value is the frequency of an entry for that term |
| Similarity.ToDictionary | project.cpp:79-80 | the loading loop builds `ToMap(freqs)` |
| Similarity.CalculateSimilarity | project.cpp:75-91 | the loop returns `Score`, the sum over the shared terms of both frequencies, whatever order it walks the first dictionary in |
| Similarity.ScoreSymmetric | project.cpp:75-91 | the index does not depend on the order of the two profiles |
| Similarity.ScoreZeroIff | project.cpp:82-90 | for positive frequencies, the index is non-negative, and it is 0 exactly when the profiles share no term |
| Similarity.ScoreSelf | project.cpp:75-91 | a profile with distinct terms compared with itself scores twice the sum of its frequencies |
| Similarity.IdenticalDocuments | project.cpp:75-91 | a document with a kept word and at most `limit` distinct terms scores exactly 2 with itself |
| Similarity.ScoreBounds | project.cpp:75-91 | the index of two profiles lies in [0, 2] |
| Similarity.ProfileDictionary | project.cpp:78-80 | the dictionary of a profile holds non-negative values that sum to at most 1 |
| Similarity.ScoreEmptyProfile | project.cpp:82-90 | the empty profile scores 0 with every profile, in either position |
| Similarity.EmptyDocument | project.cpp:82-90 | a document with no kept word scores 0 with every profile, in either position |
| Similarity.DocumentScoreBounds | project.cpp:75-91 | the index of two document profiles lies in [0, 2], and is 0 when either file is unreadable |
| Ranker.PreprocessAll | project.cpp:101-106 | one profile per document, in document order, each as `PreprocessWords` promises |
| Ranker.SimilarityMatrix | project.cpp:109-116 | a fresh n×n matrix: 0 on the diagonal, the index of books r and c at every other cell (r, c), hence symmetric |
| Ranker.FillRow | project.cpp:111-115 | the inner loop fills cells (i, j) and (j, i) for every j > i and leaves every other cell unchanged |
| Ranker.RowStartClosed | project.cpp:120-126 | twice the number of pairs before row i is i(2n-i-1) |
| Ranker.RowStartMonotone | project.cpp:120-126 | later rows start no earlier in the pair list |
| Ranker.PairIndexBounds | project.cpp:120-126 | pair (i, j) lies in row i's block of the list, before every later row |
| Ranker.PairCount | project.cpp:120-126 | the list holds n(n-1)/2 pairs |
| Ranker.ListPairs | project.cpp:119-126 | n(n-1)/2 triples `(matrix[r][c], r, c)` with r < c, in row-major order, with pair (r, c) at position `PairIndex(n, r, c)` |
| Ranker.ListRow | project.cpp:122-125 | the inner loop appends the pairs of row i, in column order |
| Ranker.ListStep | project.cpp:124 | appending pair (i, j) keeps the list complete, ordered and correctly placed up to (i, j + 1) |
| Ranker.GreaterIsStrictTotalOrder | project.cpp:129 | `std::greater` on the triples is irreflexive, asymmetric, transitive and total |
| Ranker.SortDescending | project.cpp:129 | the array ends with no entry greater than an earlier one and is a permutation of its old contents |
| Ranker.InsertDescending | project.cpp:129 | one insertion step extends the sorted prefix by one and permutes the array |
| Ranker.PermutedPairs | project.cpp:129 | the sorted list still holds distinct pairs, each with its index |
| Ranker.LeftOutIsBelow | project.cpp:129-133 | a pair not among the first m sorted entries is below each of them |
| Ranker.SortedPrefixStrictlyDescending | project.cpp:129-133 | the first m entries of the sorted pair list are strictly descending, since no pair occurs twice |
| Ranker.SortedPairsRank | project.cpp:129-133 | the first `min(k, n(n-1)/2)` sorted pairs form a ranking: valid pairs with their indices, strictly descending, every unreported pair below every reported one |
| Ranker.CompareCorpus | project.cpp:94-140 | the body of `main`: every document is profiled as `PreprocessWords` promises, and the reported pairs form the ranking `IsRanking` of those profiles |
| Ranker.NotGreaterAt | project.cpp:129-133 | where two strictly descending lists, each dominating the other's missing entries, first differ, the first list's entry is not the greater |
| Ranker.AgreeUpTo | project.cpp:129-133 | two such lists of equal length agree on every prefix |
| Ranker.RankingDominates | project.cpp:129-133 | an entry of one ranking missing from another ranking of the same profiles is below every entry of the other |
| Ranker.RankingIsUnique | project.cpp:129-133 | the reported pairs are fully determined by the profiles and `k`, although `std::sort` is not stable |
| Ranker.ReportedIndicesInRange | project.cpp:129-136 | every reported index lies in [0, 2] |

## Left out

- File access is modelled as data. `project.cpp:29-34` opens the file and `:41` splits it at whitespace; here a `Document` is either `Unreadable` or the sequence of its words. The error message on standard error is not modelled.
- The file names at `project.cpp:97` and `:104` are not modelled: book `i` is `documents[i]`.
- The printed report at `project.cpp:132-137` is not modelled. `CompareCorpus` returns the pairs that would be printed.
- Frequencies and indices are exact `real`s, not `double`s. Rounding in the division at `:63` and in the sums at `:87` is not modelled, so the order of summation does not matter in the model. With doubles, the walk order of `std::map` (sorted keys) could change the last bit of an index.
- Profiler.CountWords: counts and the total are unbounded naturals; `int` overflow after 2^31 - 1 words is not modelled.
- `std::map` iteration order is not modelled. `Frequencies` and `CalculateSimilarity` take the keys in an arbitrary order; their contracts do not depend on it.
- Profiler.SortByFrequency: specified only as "sorted and a permutation", because `std::sort` is not stable. The order among terms of equal frequency, and so which of them survive the cut, is left open, as it is in the source.
- Characters are Dafny `char`s compared by code point. Signed `char` values outside ASCII are never alphanumeric either way, so they are dropped, as in the source.
