# News service core, modelled in Dafny

This project models the parts of the news service that hold logic of their own.

- **The extractive summarizer.** It preprocesses sentences into normalised words and an entropy. It builds a cosine-similarity matrix with a zero diagonal and weights the PageRank scores by entropy. It cuts the stable ranking after `round(N / 4)` sentences, clamped to [2, 10]. The duplicate check that follows reads the flattened matrix, so it compares every qualifier with sentence 0 only. It turns the coordinates `np.where` reports into tuples, unpacks each into two qualifier positions, deletes the one with the lower entropy and appends the next non-qualifier. Two or more qualifiers similar to sentence 0 make the unpacking raise ValueError. The chosen sentences are then emitted in their original order.
- **The lexicon sentiment analyzer.** A token scores -1, +1 or 0 from the lexicons. Each booster adverb among its direct children multiplies that score by 1.2 or 0.8. A sentence's token scores are summed and squashed with `s / sqrt(s * s + 15)`, and an article's sentence scores are summed.
- **The storage filter layer.**
  - `FixedDict` wraps a dict whose keys cannot change.
  - `StorageFilterType` comes in two copies: the news copy hands out fresh parameter objects, the event copy shared ones.
  - `MongoFilter` turns parameters into Mongo queries.
  - `EventService` and `NewsService` build the filter lists they pass to storage.

Modules, one per file:

- `Wrappers`: the raised exceptions, `Option`/`Result`.
- `Text`: `split(' ')`, `' '.join`, punctuation removal, `lower()`.
- `SummaryPreprocess`, `SummarySimilarity`, `SummaryRanking`, `SummaryCleaning` and `Summarizer`: the summarizer.
- `RealSqrt` and `Sentiment`: the analyzer.
- `Values`: Python values, including `None`.
- `FixedDicts`.
- `StorageFilters`, `NewsFilters`, `EventFilters` and `MongoFilter`.
- `StorageClient`: a storage client that records the calls it receives.
- `EventService` and `NewsService`.

Code that updates state step by step is modelled by methods with loop invariants:
- the similarity matrix (an `array2`);
- the count vectors;
- the score weighting;
- the list surgery of `_clean_qualifiers`;
- the sentiment accumulators;
- the writes to `FixedDict` objects.

Each such method is proved against a function or against stated properties. The heap objects that the source shares are classes: the dict a `FixedDict` wraps, the enum's parameter templates and the storage client.

The two copies of `FixedDict` (`event_manager/lib/fixed_dict.py` and `lib/fixed_dict.py`) differ only in parameter names, so one model covers both; the table cites the first. The two copies of `get_filter_implementation` are identical; the table cites the news one. The two copies of `StorageFilterType` differ in how `params` is produced, so each has its own module.

## Model

| member | source | states |
|---|---|---|
| SummaryRanking.RoundQuarter | nlp_service/nlp_celery_worker/nlp_helpers/summarizer.py:58 | `round(n / 4)` with ties to even: the result is within 1/2 of n/4, and an exact half rounds to the even neighbour |
| SummaryRanking.RoundQuarterUnique | nlp_service/nlp_celery_worker/nlp_helpers/summarizer.py:58 | any r meeting the half-to-even conditions is `RoundQuarter(n)`, so the definition is the rounding rule and nothing else |
| SummaryRanking.SummarySize | nlp_service/nlp_celery_worker/nlp_helpers/summarizer.py:58-60 | the summary size lies in [2, 10] and is the rounded quarter when that already lies in the range, else the nearer bound |
| SummaryRanking.SummarySizeRange | nlp_service/nlp_celery_worker/nlp_helpers/summarizer.py:58-60 | up to 10 sentences give 2, from 38 on give 10, in between the rounded quarter; `round` gives 0, 2, 2, 4, 4 for 2, 6, 10, 14, 18 sentences |
| Text.SplitOnSpace | nlp_service/nlp_celery_worker/nlp_helpers/summarizer.py:88-89 | `split(' ')` yields one more part than there are spaces, and no part holds a space |
| Text.JoinWithSpace | nlp_service/nlp_celery_worker/nlp_helpers/summarizer.py:73 | `' '.join` yields the parts' total length plus one separator between each two parts; no parts give `''` |
| Text.JoinSplit | nlp_service/nlp_celery_worker/nlp_helpers/summarizer.py:73-89 | joining the parts of `s.split(' ')` with single spaces gives `s` back |
| Text.SplitJoin | nlp_service/nlp_celery_worker/nlp_helpers/summarizer.py:73-89 | splitting the join of space-free parts gives the parts back |
| Text.SplitWithoutSpace | nlp_service/nlp_celery_worker/nlp_helpers/summarizer.py:88 | a word without spaces splits into itself alone |
| Text.SplitAfterWord | nlp_service/nlp_celery_worker/nlp_helpers/summarizer.py:88 | splitting `w + ' ' + t` yields `w` followed by the parts of `t` |
| Text.LowerChar | nlp_service/nlp_celery_worker/nlp_helpers/summarizer.py:88 | a lowered character is not a capital, and a character that is not a capital is kept |
| Text.Lower | nlp_service/nlp_celery_worker/nlp_helpers/summarizer.py:88 | `lower()` keeps the length and lowers each character in place |
| Text.LowerKeepsNonPunctuation | nlp_service/nlp_celery_worker/nlp_helpers/summarizer.py:88 | lowering a word free of punctuation leaves it free of punctuation |
| Text.PunctuationIsAscii | nlp_service/nlp_celery_worker/nlp_helpers/summarizer.py:88 | every `string.punctuation` character lies in the four ASCII punctuation ranges |
| Text.StripPunctuation | nlp_service/nlp_celery_worker/nlp_helpers/summarizer.py:88 | `translate(maketrans('', '', string.punctuation))` removes exactly the punctuation characters and keeps every other one |
| Text.StripClean | nlp_service/nlp_celery_worker/nlp_helpers/summarizer.py:88 | a word without punctuation is unchanged by the removal |
| Text.LowerClean | nlp_service/nlp_celery_worker/nlp_helpers/summarizer.py:88 | a word without capitals is unchanged by `lower()` |
| Text.NormalizeWord | nlp_service/nlp_celery_worker/nlp_helpers/summarizer.py:88 | a normalised word is no longer than the word and holds no punctuation and no capital |
| Text.NormalizeIdempotent | nlp_service/nlp_celery_worker/nlp_helpers/summarizer.py:88 | normalising twice is normalising once |
| SummaryPreprocess.Words | nlp_service/nlp_celery_worker/nlp_helpers/summarizer.py:88-89 | a sentence gives (number of spaces + 1) words, each normalised |
| SummaryPreprocess.ContentCount | nlp_service/nlp_celery_worker/nlp_helpers/summarizer.py:104 | the number of words not among the stop words is at most the number of words |
| SummaryPreprocess.ContentCountAll | nlp_service/nlp_celery_worker/nlp_helpers/summarizer.py:104 | every word counts exactly when no word is a stop word |
| SummaryPreprocess.ContentCountNone | nlp_service/nlp_celery_worker/nlp_helpers/summarizer.py:104 | no word counts exactly when every word is a stop word |
| SummaryPreprocess.Entropy | nlp_service/nlp_celery_worker/nlp_helpers/summarizer.py:93-104 | the entropy lies in [0, 1] and times the word count is the content count; it is 1 iff no word is a stop word and 0 iff every word is |
| SummaryPreprocess.PreprocessSentence | nlp_service/nlp_celery_worker/nlp_helpers/summarizer.py:87-90 | one sentence gives (spaces + 1) words, never none, and their entropy |
| SummaryPreprocess.PreprocessSentences | nlp_service/nlp_celery_worker/nlp_helpers/summarizer.py:76-90 | one preprocessed entry per sentence, in order |
| SummarySimilarity.Vocabulary | nlp_service/nlp_celery_worker/nlp_helpers/summarizer.py:143 | `list(set(sent1 + sent2))` holds each word of either sentence exactly once |
| SummarySimilarity.IndexOf | nlp_service/nlp_celery_worker/nlp_helpers/summarizer.py:148-156 | `all_words.index(word)` is the first position holding the word |
| SummarySimilarity.CountsSnoc | nlp_service/nlp_celery_worker/nlp_helpers/summarizer.py:148-156 | one more word adds 1 to its own slot, or nothing for a stop word |
| SummarySimilarity.CountsSum | nlp_service/nlp_celery_worker/nlp_helpers/summarizer.py:145-156 | the slots of a sentence's vector add up to its number of non-stop words |
| SummarySimilarity.ContentCountSnoc | nlp_service/nlp_celery_worker/nlp_helpers/summarizer.py:148-156 | one more word adds 1 to the content count unless it is a stop word |
| SummarySimilarity.SelfDotZero | nlp_service/nlp_celery_worker/nlp_helpers/summarizer.py:158 | a vector's dot product with itself is 0 iff its slots add up to 0 |
| SummarySimilarity.NaNIffNoContent | nlp_service/nlp_celery_worker/nlp_helpers/summarizer.py:158-159 | the cosine distance is NaN iff one sentence has no non-stop word, and then the similarity is 0.0 |
| SummarySimilarity.SimilarityNonNegative | nlp_service/nlp_celery_worker/nlp_helpers/summarizer.py:158-159 | `1 - distance` is never negative for count vectors |
| SummarySimilarity.RepeatedSentenceSimilarity | nlp_service/nlp_celery_worker/nlp_helpers/summarizer.py:158-159 | a sentence with content compared with itself scores 1, above the 0.75 duplicate threshold |
| SummarySimilarity.CountVector | nlp_service/nlp_celery_worker/nlp_helpers/summarizer.py:145-156 | the counting loop yields the count vector, whose slots add up to the sentence's non-stop words |
| SummarySimilarity.SentenceSimilarity | nlp_service/nlp_celery_worker/nlp_helpers/summarizer.py:130-159 | `_sentence_similarity` is never negative, and it is 0.0 when either sentence is all stop words |
| SummarySimilarity.BuildSimilarityMatrix | nlp_service/nlp_celery_worker/nlp_helpers/summarizer.py:107-127 | a new N x N matrix, 0 on the diagonal, the pair's similarity everywhere else, nowhere negative, and symmetric |
| SummarySimilarity.DotOfCounts | nlp_service/nlp_celery_worker/nlp_helpers/summarizer.py:145-158 | the dot product of two count vectors is the sum, over the vocabulary, of the two sentences' counts of each word |
| SummarySimilarity.DotOverOrderFree | nlp_service/nlp_celery_worker/nlp_helpers/summarizer.py:143 | two duplicate-free vocabularies with the same words give the same sum, whatever their order |
| SummarySimilarity.CosineOfDots | nlp_service/nlp_celery_worker/nlp_helpers/summarizer.py:158 | the cosine distance depends only on the two self dot products and the cross one, and not on which vector comes first |
| SummarySimilarity.AnyVocabularyOrder | nlp_service/nlp_celery_worker/nlp_helpers/summarizer.py:143-159 | any duplicate-free listing of the two sentences' words, in place of `list(set(sent1 + sent2))`, gives the same cosine distance |
| SummarySimilarity.SimilaritySymmetric | nlp_service/nlp_celery_worker/nlp_helpers/summarizer.py:130-159 | `_sentence_similarity(a, b) == _sentence_similarity(b, a)`, although the two calls list the vocabulary in different orders |
| SummaryRanking.Weighted | nlp_service/nlp_celery_worker/nlp_helpers/summarizer.py:55-56 | the weighted scores: one per sentence, its PageRank times its entropy |
| SummaryRanking.WeightScores | nlp_service/nlp_celery_worker/nlp_helpers/summarizer.py:55-56 | the loop computes `Weighted`; each weighted score lies between 0 and the PageRank |
| SummaryRanking.Insert | nlp_service/nlp_celery_worker/nlp_helpers/summarizer.py:62 | inserting a position into a ranking adds exactly that position |
| SummaryRanking.InsertRanked | nlp_service/nlp_celery_worker/nlp_helpers/summarizer.py:62 | insertion keeps the list ranked: higher score first, equal scores by position |
| SummaryRanking.Rank | nlp_service/nlp_celery_worker/nlp_helpers/summarizer.py:62-63 | ranking positions 0..n-1 lists each of them |
| SummaryRanking.RankIsSorted | nlp_service/nlp_celery_worker/nlp_helpers/summarizer.py:62-63 | the ranking has no repeats and is sorted by descending score, ties keeping the lower position first as a stable sort does |
| SummaryRanking.RankedUnique | nlp_service/nlp_celery_worker/nlp_helpers/summarizer.py:62-63 | two duplicate-free rankings of the same positions are equal |
| SummaryRanking.RankedIndicesSpec | nlp_service/nlp_celery_worker/nlp_helpers/summarizer.py:62-63 | `list(ranked_scores.keys())` is every position once in stable descending order, and it is the only such list |
| SummaryRanking.SplitRanking | nlp_service/nlp_celery_worker/nlp_helpers/summarizer.py:64-65 | the two slices put back together are the ranking, and the first has min(k, N) entries |
| SummaryRanking.SplitOfRanking | nlp_service/nlp_celery_worker/nlp_helpers/summarizer.py:64-65 | qualifiers and non-qualifiers partition the positions, and every qualifier outranks every non-qualifier |
| SummaryRanking.SplitPartitions | nlp_service/nlp_celery_worker/nlp_helpers/summarizer.py:62-65 | the same, for the split of the actual ranking |
| SummaryRanking.SortAscending | nlp_service/nlp_celery_worker/nlp_helpers/summarizer.py:70 | `sorted` yields an ascending permutation |
| SummaryRanking.SortAscendingSorted | nlp_service/nlp_celery_worker/nlp_helpers/summarizer.py:70 | sorting an ascending list changes nothing |
| SummaryRanking.SortDistinct | nlp_service/nlp_celery_worker/nlp_helpers/summarizer.py:70 | sorting distinct positions yields a strictly increasing list of the same positions |
| SummaryCleaning.FlatTakeFirstRow | nlp_service/nlp_celery_worker/nlp_helpers/summarizer.py:174 | `take` of a flat index below N reads row 0 of the matrix |
| SummaryCleaning.TakeFirstRow | nlp_service/nlp_celery_worker/nlp_helpers/summarizer.py:174 | the flat read of a qualifier is `matrix[0, q]` |
| SummaryCleaning.TakenRows | nlp_service/nlp_celery_worker/nlp_helpers/summarizer.py:174 | the taken 2 x k array compares every qualifier with sentence 0, its second row the first one reversed |
| SummaryCleaning.PositionsSpec | nlp_service/nlp_celery_worker/nlp_helpers/summarizer.py:177 | the positions `np.where` reports in a row are exactly those above 0.75, ascending |
| SummaryCleaning.NoPositions | nlp_service/nlp_celery_worker/nlp_helpers/summarizer.py:177 | a row with nothing above 0.75 reports nothing |
| SummaryCleaning.OnlyPosition | nlp_service/nlp_celery_worker/nlp_helpers/summarizer.py:177 | a row with exactly one entry above 0.75 reports that one |
| SummaryCleaning.PositionsReversed | nlp_service/nlp_celery_worker/nlp_helpers/summarizer.py:174-177 | the reversed row reports as many positions as the row |
| SummaryCleaning.WhereAbove | nlp_service/nlp_celery_worker/nlp_helpers/summarizer.py:177 | `np.where` on the 2 x k array yields row and column indices of equal length, one entry per hit |
| SummaryCleaning.WhereBounds | nlp_service/nlp_celery_worker/nlp_helpers/summarizer.py:177 | row indices are 0 or 1 and column indices are below k |
| SummaryCleaning.SortedTuplesShape | nlp_service/nlp_celery_worker/nlp_helpers/summarizer.py:175-177 | the set of sorted tuples is empty iff there is no hit, and each tuple is ascending, in range and as long as the hits |
| SummaryCleaning.ResortedSorted | nlp_service/nlp_celery_worker/nlp_helpers/summarizer.py:179 | sorting the already sorted tuples again at line 179 changes nothing |
| SummaryCleaning.DetectionShape | nlp_service/nlp_celery_worker/nlp_helpers/summarizer.py:174-177 | the detection finds nothing iff no qualifier is over 0.75 similar to sentence 0; otherwise each tuple has twice as many entries as such qualifiers |
| SummaryCleaning.DetectionOfOne | nlp_service/nlp_celery_worker/nlp_helpers/summarizer.py:174-179 | exactly one such qualifier at position p yields the pairs (0, 1) and (p, k-1-p) sorted, the only case the unpacking accepts |
| SummaryCleaning.SortPair | nlp_service/nlp_celery_worker/nlp_helpers/summarizer.py:175 | sorting a pair orders its two entries |
| SummaryCleaning.ReplaceQualifier | nlp_service/nlp_celery_worker/nlp_helpers/summarizer.py:181-185 | deleting one qualifier and appending the first non-qualifier keeps both lists duplicate-free and loses exactly the deleted position |
| SummaryCleaning.RefilledStep | nlp_service/nlp_celery_worker/nlp_helpers/summarizer.py:181-185 | one replacement keeps the count of qualifiers, the lists disjoint, and consumes non-qualifiers from the front |
| SummaryCleaning.RefilledTrans | nlp_service/nlp_celery_worker/nlp_helpers/summarizer.py:179-186 | successive replacements compose |
| SummaryCleaning.ReplaceStep | nlp_service/nlp_celery_worker/nlp_helpers/summarizer.py:180-185 | one tuple through the loop body: ValueError unless it has two entries, nothing once no non-qualifier is left, IndexError past the end, else the lower-entropy position (the second on a tie) deleted and the first non-qualifier appended; positions stay sentence indices |
| SummaryCleaning.ReplaceAll | nlp_service/nlp_celery_worker/nlp_helpers/summarizer.py:179-185 | the loop over tuples in a given order, stopping at the first error; positions stay sentence indices |
| SummaryCleaning.ReplaceAllSnoc | nlp_service/nlp_celery_worker/nlp_helpers/summarizer.py:179-185 | one more tuple is one more step, unless the loop has already raised |
| SummaryCleaning.ReplaceAllStops | nlp_service/nlp_celery_worker/nlp_helpers/summarizer.py:179-185 | after an error, further tuples change nothing |
| SummaryCleaning.StepRefilled | nlp_service/nlp_celery_worker/nlp_helpers/summarizer.py:181-185 | a step that does not raise keeps the lists refilled and uses up a non-qualifier when one is left |
| SummaryCleaning.ReplaceAllRefilled | nlp_service/nlp_celery_worker/nlp_helpers/summarizer.py:179-185 | a run that does not raise keeps the lists refilled and, when it saw a tuple and had a non-qualifier, used one up |
| SummaryCleaning.ReplaceAllErrors | nlp_service/nlp_celery_worker/nlp_helpers/summarizer.py:179-185 | a run keeps the number of qualifiers; only ValueError, or IndexError with fewer than two qualifiers, can escape; with no pair among the tuples the first one raises ValueError |
| SummaryCleaning.ReplaceAllOutcome | nlp_service/nlp_celery_worker/nlp_helpers/summarizer.py:179-185 | a pass over all the tuples, in any order, ends refilled with a non-qualifier used up, or with one of those errors |
| SummaryCleaning.ReplaceSimilar | nlp_service/nlp_celery_worker/nlp_helpers/summarizer.py:179-185 | the loop takes every detected tuple once, in some order, and its result is `ReplaceAll` in that order; hence the refill and error facts above |
| SummaryCleaning.DetectionResorted | nlp_service/nlp_celery_worker/nlp_helpers/summarizer.py:174-179 | re-sorting the detected tuples at line 179 changes nothing, and they hold row numbers or qualifier positions |
| SummaryCleaning.RoundOutcome | nlp_service/nlp_celery_worker/nlp_helpers/summarizer.py:174-185 | one round over the detected tuples, in any order: refilled with a non-qualifier used up, ValueError with two or more qualifiers similar to sentence 0, or IndexError with fewer than two qualifiers |
| SummaryCleaning.CleanRunFacts | nlp_service/nlp_celery_worker/nlp_helpers/summarizer.py:162-186 | every run of `_clean_qualifiers` ends refilled with no non-qualifier left or nothing detected; changes nothing when there is nothing to do; raises ValueError for two or more hits; IndexError only below two qualifiers |
| SummaryCleaning.CleanQualifiers | nlp_service/nlp_celery_worker/nlp_helpers/summarizer.py:162-186 | `_clean_qualifiers`: its result is a run of the replacement rule, round after round (`CleanRun`), with each round's tuple order recorded; hence the facts of `CleanRunFacts`; it terminates on the number of non-qualifiers |
| Summarizer.PickSpec | nlp_service/nlp_celery_worker/nlp_helpers/summarizer.py:69-71 | the picked sentences are, position by position, the sentences at the chosen indices |
| Summarizer.IncreasingIsRange | nlp_service/nlp_celery_worker/nlp_helpers/summarizer.py:70 | N strictly increasing indices below N are 0, 1, ..., N-1 |
| Summarizer.PickAll | nlp_service/nlp_celery_worker/nlp_helpers/summarizer.py:69-71 | picking every position in order yields the sentences |
| Summarizer.WordLists | nlp_service/nlp_celery_worker/nlp_helpers/summarizer.py:48-50 | the words passed to the matrix are the preprocessed words, in order |
| Summarizer.Entropies | nlp_service/nlp_celery_worker/nlp_helpers/summarizer.py:55-56 | the entropies used for weighting are the preprocessed ones, in order |
| Summarizer.CollectSentences | nlp_service/nlp_celery_worker/nlp_helpers/summarizer.py:69-71 | the appending loop collects the picked sentences |
| Summarizer.SplitByScore | nlp_service/nlp_celery_worker/nlp_helpers/summarizer.py:55-65 | the qualifiers are the first k of the stable descending ranking of PageRank times entropy, the non-qualifiers the rest; they partition 0..N-1 without repeats, with min(k, N) qualifiers |
| Summarizer.Emit | nlp_service/nlp_celery_worker/nlp_helpers/summarizer.py:69-73 | `chosen` is `sorted(qualifiers)`; the output joins the sentences at the qualifiers in strictly increasing order, each once; all N qualifiers give the whole text |
| Summarizer.GenerateSummary | nlp_service/nlp_celery_worker/nlp_helpers/summarizer.py:28-73 | the matrix is that of the preprocessed sentences, the split is the cut of the weighted ranking, and the cleaning is a run of `_clean_qualifiers` on them; the summary is the sentences at `sorted` of the cleaned qualifiers, or the top of the ranking when nothing is detected, joined by spaces; only ValueError escapes; up to two sentences give the whole text |
| RealSqrt.SqrtAboveAbs | nlp_service/nlp_celery_worker/nlp_helpers/sentiment_analyzer.py:68 | `sqrt(s * s + c)` with c > 0 exceeds the absolute value of s |
| Sentiment.BaseSentiment | nlp_service/nlp_celery_worker/nlp_helpers/sentiment_analyzer.py:80-85 | -1 iff the lowered lemma is a negative (even if also positive), +1 iff positive only, 0 iff in neither |
| Sentiment.BoostedScales | nlp_service/nlp_celery_worker/nlp_helpers/sentiment_analyzer.py:98-104 | the boosted score is the score times the product of the children's factors |
| Sentiment.BoostOfOne | nlp_service/nlp_celery_worker/nlp_helpers/sentiment_analyzer.py:99-103 | one child: 1 unless an adverb; 1.2 for an increase adverb, even if also a decrease one; 0.8 for a decrease adverb only; 1 in neither list |
| Sentiment.BoostedPositive | nlp_service/nlp_celery_worker/nlp_helpers/sentiment_analyzer.py:98-104 | boosting keeps a positive score positive |
| Sentiment.TokenScore | nlp_service/nlp_celery_worker/nlp_helpers/sentiment_analyzer.py:80-85 | a token's score has the sign of its base score and is 0 exactly when the base is, whatever its children |
| Sentiment.CountAppend | nlp_service/nlp_celery_worker/nlp_helpers/sentiment_analyzer.py:98-104 | the counts of a concatenation add up |
| Sentiment.CountRemove | nlp_service/nlp_celery_worker/nlp_helpers/sentiment_analyzer.py:98-104 | taking one child out lowers its own count by one and the other not at all |
| Sentiment.CountPermutation | nlp_service/nlp_celery_worker/nlp_helpers/sentiment_analyzer.py:98-104 | reordering the children leaves both counts unchanged |
| Sentiment.PowerDown | nlp_service/nlp_celery_worker/nlp_helpers/sentiment_analyzer.py:102-103 | one more factor 0.8 multiplies 1.2^a * 0.8^b by 0.8 |
| Sentiment.BoostCounts | nlp_service/nlp_celery_worker/nlp_helpers/sentiment_analyzer.py:98-104 | the product of the factors is 1.2^a * 0.8^b, a and b the numbers of increasing and decreasing children |
| Sentiment.BoostedSnoc | nlp_service/nlp_celery_worker/nlp_helpers/sentiment_analyzer.py:98-104 | one more child scales the running score by 1.2, 0.8 or 1 |
| Sentiment.BoostOfCounts | nlp_service/nlp_celery_worker/nlp_helpers/sentiment_analyzer.py:98-104 | children with the same two counts boost alike |
| Sentiment.BoostPermutation | nlp_service/nlp_celery_worker/nlp_helpers/sentiment_analyzer.py:98-104 | the boost does not depend on the order of the children |
| Sentiment.TokenScoreBoosted | nlp_service/nlp_celery_worker/nlp_helpers/sentiment_analyzer.py:80-104 | a token scores base * 1.2^a * 0.8^b |
| Sentiment.BoostedSameShape | nlp_service/nlp_celery_worker/nlp_helpers/sentiment_analyzer.py:98-104 | children with the same lemmas and tags, position by position, boost alike |
| Sentiment.OnlyDirectChildren | nlp_service/nlp_celery_worker/nlp_helpers/sentiment_analyzer.py:80-104 | tokens with the same lemma whose children agree in lemma and tag score alike: grandchildren play no part |
| Sentiment.Squash | nlp_service/nlp_celery_worker/nlp_helpers/sentiment_analyzer.py:68 | `s / sqrt(s * s + 15)` has the sign of s, is 0 iff s is, and lies strictly inside (-1, 1) |
| Sentiment.UnscoredSentence | nlp_service/nlp_celery_worker/nlp_helpers/sentiment_analyzer.py:63-68 | a sentence with no scored token scores 0 |
| Sentiment.PositiveSentence | nlp_service/nlp_celery_worker/nlp_helpers/sentiment_analyzer.py:63-68 | no negative token and at least one positive one give a positive sentence score |
| Sentiment.NegativeSentence | nlp_service/nlp_celery_worker/nlp_helpers/sentiment_analyzer.py:63-68 | no positive token and at least one negative one give a negative sentence score |
| Sentiment.ArticleBounds | nlp_service/nlp_celery_worker/nlp_helpers/sentiment_analyzer.py:49-52 | no sentence gives 0; n sentences give a total strictly inside (-n, n) |
| Sentiment.SentimentAnalyzer.constructor | nlp_service/nlp_celery_worker/nlp_helpers/sentiment_analyzer.py:21-36 | the analyzer keeps the lexicons and the pipeline it is given |
| Sentiment.SentimentAnalyzer.ApplyTokenBoosters | nlp_service/nlp_celery_worker/nlp_helpers/sentiment_analyzer.py:87-104 | the loop's result is the boosted score: the score times the product of the factors |
| Sentiment.SentimentAnalyzer.TokenSentiment | nlp_service/nlp_celery_worker/nlp_helpers/sentiment_analyzer.py:70-85 | `_get_token_sentiment` yields the token score |
| Sentiment.SentimentAnalyzer.SentenceSentiment | nlp_service/nlp_celery_worker/nlp_helpers/sentiment_analyzer.py:54-68 | the summing loop and the squash yield the sentence score |
| Sentiment.SentimentAnalyzer.Analyze | nlp_service/nlp_celery_worker/nlp_helpers/sentiment_analyzer.py:38-52 | `__call__` yields the sum of the sentence scores |
| Values.Subscript | event_manager/services/event_service.py:39 | `v[key]` yields the entry of a dict holding the key, KeyError for a dict without it, TypeError for anything else |
| FixedDicts.FixedDict.constructor | event_manager/lib/fixed_dict.py:12-19 | the FixedDict keeps the very dict it is given, not a copy |
| FixedDicts.FixedDict.Get | event_manager/lib/fixed_dict.py:59-81 | lookup succeeds iff the key is in the dict (`__contains__`), yields the stored value, and raises KeyError otherwise |
| FixedDicts.FixedDict.Set | event_manager/lib/fixed_dict.py:39-51 | an existing key takes the value and nothing else changes; a missing key raises KeyError with no change; the keys and the length never change |
| FixedDicts.FixedDict.Delete | event_manager/lib/fixed_dict.py:53-57 | deleting always raises NotImplementedError |
| FixedDicts.WriteThrough | event_manager/lib/fixed_dict.py:12-51 | a write through the FixedDict shows in the dict it was built from |
| StorageFilters.FromKeys | news_manager/infrastructure/storage/filters/storage_filter_type.py:27 | `dict.fromkeys(keys, v)` has exactly the listed keys, each mapped to v |
| StorageFilters.Template | news_manager/infrastructure/storage/filters/storage_filter_type.py:16-27 | the UNIQUE parameters are {key, value} and the RANGE ones {key, upper, lower}, all None |
| StorageFilters.GetFilterImplementation | news_manager/infrastructure/storage/filters/storage_filter_type.py:29-39 | the attribute named by the member: `parse_unique` for UNIQUE, `parse_range` for RANGE, AttributeError when absent |
| StorageFilters.OverwriteUnique | event_manager/services/event_service.py:37-39 | writing both UNIQUE names leaves nothing of the old values |
| StorageFilters.OverwriteRange | event_manager/services/event_service.py:56-59 | writing all three RANGE names leaves nothing of the old values |
| NewsFilters.Params | news_manager/infrastructure/storage/filters/storage_filter_type.py:19-27 | each access yields a new FixedDict over a new dict holding the member's names, all None |
| NewsFilters.ParamsAreFresh | news_manager/infrastructure/storage/filters/storage_filter_type.py:27 | a write to one access's parameters is not seen by a later access; a name outside the template raises KeyError |
| EventFilters.FilterTemplates.constructor | event_manager/infrastructure/storage/filters/storage_filter_type.py:16-17 | the two templates are distinct dicts with the members' names, all None |
| EventFilters.FilterTemplates.Params | event_manager/infrastructure/storage/filters/storage_filter_type.py:19-27 | an access yields the member's one shared object, whose names are the template's whatever callers wrote |
| EventFilters.FilterTemplates.ParamsAreShared | event_manager/infrastructure/storage/filters/storage_filter_type.py:16-27 | a write through one access is seen by a later access, and both templates keep their names |
| MongoFilter.ParseUnique | infrastructure/storage/filters/mongo_filter.py:12-23 | the one-entry query from params['key'] to params['value']; a missing 'key', then a missing 'value', raises KeyError; with both present, a list or dict under 'key' raises TypeError |
| MongoFilter.ParseRange | infrastructure/storage/filters/mongo_filter.py:25-41 | one entry for params['key']; its condition holds `$gt` iff 'lower' is present and not None, equal to it, and `$lt` iff 'upper' is, equal to it, and nothing else; a missing 'key' raises KeyError and a list or dict under it TypeError |
| MongoFilter.FilterImplementations | infrastructure/storage/filters/mongo_filter.py:12-41 | on this class every filter type resolves, UNIQUE to `parse_unique` and RANGE to `parse_range`; none raises AttributeError |
| StorageClient.RecordingStorage.Save | event_manager/services/event_service.py:40 | a save call is recorded with its parameters as they are when it is made |
| StorageClient.RecordingStorage.Get | event_manager/services/event_service.py:70 | a get call is recorded with the filter types and each parameter object's contents when it is made |
| EventService.EventService.FillUnique | event_manager/services/event_service.py:64-66 | both shared UNIQUE parameters are overwritten, so the object holds exactly the new key and value |
| EventService.EventService.FillRange | event_manager/services/event_service.py:56-59 | all three shared RANGE parameters are overwritten |
| EventService.EventService.SaveEvent | event_manager/services/event_service.py:29-40 | a save of the event with UNIQUE and {key: 'base_event.base_event_id', value: the event's id}; UNIQUE then holds exactly those two values; a missing id raises after 'key' was written, and nothing is saved; RANGE is untouched |
| EventService.EventService.GetEvents | event_manager/services/event_service.py:42-70 | without bounds the filters [UNIQUE] with the online sell mode; with either bound [RANGE, UNIQUE] with the event date range first; lists of equal length, no stale value; afterwards UNIQUE holds the sell-mode filter and RANGE the date range, or its old contents with no bound |
| NewsService.NewsService.SaveNew | news_manager/services/news_service.py:28-39 | a save of the item's fields with UNIQUE and {key: 'title', value: its title} |
| NewsService.NewsService.FillRange | news_manager/services/news_service.py:55-58 | a fresh RANGE parameter object holding the date range |
| NewsService.NewsService.GetNews | news_manager/services/news_service.py:41-63 | without bounds two empty lists; with either bound [RANGE] with {key: 'date', upper: end, lower: start}, a missing bound staying None |

## Left out

- The NLP libraries are parameters: the NLTK stop-word list, the PageRank scores of `networkx.pagerank`, `math.sqrt` (a function value specified by `sqrt(x) >= 0` and `sqrt(x)^2 == x`) and the spaCy pipeline. `nltk.cluster.cosine_distance` is written out with NLTK's formula, NaN being `None`.
- Floating point is `real`: no rounding, overflow or NaN beyond the one above.
- The branch `stop_words is None` (summarizer.py:43-44) is not modelled: the stop words are always a list.
- Vocabulary order: `list(set(...))` has an order Python does not fix. The model takes first occurrence; every duplicate-free order gives the same similarity (`SummarySimilarity.AnyVocabularyOrder`).
- Text.LowerChar, Text.Lower: `lower()` is modelled for ASCII and Latin-1 capitals only; capitals of other scripts are left as they are.
- Summarizer.GenerateSummary: also returns the sorted qualifiers as `chosen`, and, as ghost values, the matrix, the split, the cleaning's tuple orders and its result, all of which the source keeps local.
- SummaryCleaning.CleanQualifiers: the two lists are passed in and returned rather than updated in place, since nothing else holds them. The iteration order of each set of detected tuples is left open: any order is covered, and `rounds` records the one taken.
- The IndexError branch of `_clean_qualifiers` is modelled but needs fewer than two qualifiers, which `generate_summary_from_sentences` never passes.
- Sentiment: the lexicon files (sentiment_analyzer.py:25-36) are file I/O; the lexicons are given as sets of stripped lines, since only membership is asked.
- Sentiment.BoostPermutation: order independence of the boost holds in exact arithmetic; with floats the product may differ in the last bits.
- FixedDicts.FixedDict: `__iter__` and the `MutableMapping` mixin methods are not modelled; `__len__` is `Len`, and `__contains__` is `Contains`, stated through `Get`.
- The storage backends (MongoStorage, SqlStorage) are replaced by a client that records its calls; `set_collection` in the service constructors is not modelled. The client copies each parameter object's contents when it is called, whereas `MongoStorage.get` is a generator that reads the shared event templates only on its first iteration (infrastructure/storage/mongo_storage.py:93-115). The "no stale value" of EventService.EventService.GetEvents therefore holds in the source only when the result is consumed before another caller writes the templates, as the one caller does (event_manager/webapp/views/events_view.py:80).
- EventService.EventService.GetEvents and NewsService.NewsService.GetNews stop at the storage call: rendering the results (`render_event`, `_render_news_list`) parses dates and is not part of this model.
- The enum's shared templates of the event copy are module-level state in the source; here they are an object the event service is given.
- `New.__iter__` is modelled only as the dict `save_new` passes on (`NewsService.Fields`).
