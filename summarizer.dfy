/** `generate_summary_from_sentences`: preprocess, score, rank, pick the top
    sentences, drop near-duplicates and emit the picks in their original order. */
module Summarizer {
  import opened Wrappers
  import opened Text
  import opened RealSqrt
  import opened SummaryPreprocess
  import opened SummarySimilarity
  import opened SummaryRanking
  import opened SummaryCleaning

  /** The sentences at the given positions, in the order of the positions. */
  function Pick(sentences: seq<string>, chosen: seq<nat>): (picked: seq<string>)
    requires AllBelow(chosen, |sentences|)
  {
    if chosen == [] then []
    else Pick(sentences, chosen[..|chosen| - 1]) + [sentences[chosen[|chosen| - 1]]]
  }

  /** The picked sentences form a subsequence of the input: one per position,
      each the sentence at its position, their positions strictly increasing. */
  lemma {:induction false} PickSpec(sentences: seq<string>, chosen: seq<nat>)
    requires AllBelow(chosen, |sentences|)
    ensures var picked := Pick(sentences, chosen);
            && |picked| == |chosen|
            && forall i :: 0 <= i < |chosen| ==> picked[i] == sentences[chosen[i]]
  {
    if chosen != [] {
      PickSpec(sentences, chosen[..|chosen| - 1]);
    }
  }

  /** A strictly increasing list of |s| positions below |s| names every position once. */
  lemma {:induction false} IncreasingIsRange(s: seq<nat>, n: nat)
    requires Increasing(s) && AllBelow(s, n) && |s| == n
    ensures forall i :: 0 <= i < |s| ==> s[i] == i
  {
    forall i | 0 <= i < |s| ensures s[i] == i {
      AtLeastIndex(s, i);
      AtMostIndex(s, n, i);
    }
  }

  lemma {:induction false} AtLeastIndex(s: seq<nat>, i: nat)
    requires Increasing(s) && i < |s|
    ensures s[i] >= i
  {
    if i > 0 {
      AtLeastIndex(s, i - 1);
    }
  }

  lemma {:induction false} AtMostIndex(s: seq<nat>, n: nat, i: nat)
    requires Increasing(s) && AllBelow(s, n) && i < |s|
    ensures s[i] + (|s| - i) <= n
    decreases |s| - i
  {
    if i + 1 < |s| {
      AtMostIndex(s, n, i + 1);
    }
  }

  /** Picking every position in order gives the sentences back. */
  lemma PickAll(sentences: seq<string>, chosen: seq<nat>)
    requires AllBelow(chosen, |sentences|) && |chosen| == |sentences|
    requires forall i :: 0 <= i < |chosen| ==> chosen[i] == i
    ensures Pick(sentences, chosen) == sentences
  {
    PickSpec(sentences, chosen);
  }

  /** The words of the preprocessed sentences, and their entropies. */
  function WordLists(prep: seq<Preprocessed>): (words: seq<seq<string>>)
    ensures |words| == |prep| && forall i :: 0 <= i < |prep| ==> words[i] == prep[i].words
  {
    seq(|prep|, i requires 0 <= i < |prep| => prep[i].words)
  }

  function Entropies(prep: seq<Preprocessed>): (entropies: seq<real>)
    ensures |entropies| == |prep| && forall i :: 0 <= i < |prep| ==> entropies[i] == prep[i].entropy
  {
    seq(|prep|, i requires 0 <= i < |prep| => prep[i].entropy)
  }

  /** The loop at summarizer.py:69-71 appending the chosen sentences. */
  method CollectSentences(sentences: seq<string>, chosen: seq<nat>) returns (parts: seq<string>)
    requires AllBelow(chosen, |sentences|)
    ensures parts == Pick(sentences, chosen)
  {
    parts := [];
    for i := 0 to |chosen|
      invariant parts == Pick(sentences, chosen[..i])
    {
      assert chosen[..i + 1][..i] == chosen[..i];
      parts := parts + [sentences[chosen[i]]];
    }
    assert chosen[..|chosen|] == chosen;
  }

  /** Lines 55-65: weight the scores, rank them and cut the ranking after
    * `round(N / 4)` clamped to [2, 10]: the two lists share nothing and together
    * hold every sentence once. */
  method SplitByScore(pagerank: seq<real>, entropies: seq<real>) returns (split: Split)
    requires |pagerank| == |entropies|
    ensures var n, k := |entropies|, SummarySize(|entropies|);
            && NoDuplicates(split.qualifiers + split.nonQualifiers)
            && AllBelow(split.qualifiers, n) && AllBelow(split.nonQualifiers, n)
            && |split.qualifiers| == (if k <= n then k else n)
            && |split.qualifiers| + |split.nonQualifiers| == n
    ensures split == SplitRanking(RankedIndices(Weighted(pagerank, entropies)), SummarySize(|entropies|))
  {
    var scores := WeightScores(pagerank, entropies);
    var k := SummarySize(|entropies|);
    var ranked := RankedIndices(scores);
    RankedIndicesSpec(scores, ranked);
    SplitPartitions(scores, k);
    split := SplitRanking(ranked, k);
  }

  lemma PrefixDistinct(a: seq<nat>, b: seq<nat>)
    requires NoDuplicates(a + b)
    ensures NoDuplicates(a)
  {
    assert forall i, j :: 0 <= i < j < |a| ==> a[i] == (a + b)[i] && a[j] == (a + b)[j];
  }

  /** Lines 69-73: the final qualifiers in ascending order, their sentences
    * joined with single spaces. */
  method Emit(sentences: seq<string>, qualifiers: seq<nat>) returns (summary: string, chosen: seq<nat>)
    requires NoDuplicates(qualifiers) && AllBelow(qualifiers, |sentences|)
    ensures chosen == SortAscending(qualifiers)
    ensures |chosen| == |qualifiers| && AllBelow(chosen, |sentences|) && Increasing(chosen)
    ensures forall x :: x in chosen <==> x in qualifiers
    ensures summary == JoinWithSpace(Pick(sentences, chosen))
    ensures |qualifiers| == |sentences| ==> summary == JoinWithSpace(sentences)
  {
    chosen := SortAscending(qualifiers);
    SortDistinct(qualifiers);
    SortedBelow(qualifiers, |sentences|);
    var parts := CollectSentences(sentences, chosen);
    summary := JoinWithSpace(parts);
    if |qualifiers| == |sentences| {
      IncreasingIsRange(chosen, |sentences|);
      PickAll(sentences, chosen);
    }
  }

  /** `generate_summary_from_sentences`. The PageRank scores of the similarity
    * graph and `math.sqrt` are parameters; `chosen` is `sorted(qualifiers)`. */
  method GenerateSummary(sentences: seq<string>, stopWords: seq<string>, pagerank: seq<real>,
                         sqrt: real -> real)
    returns (summary: Result<string>, chosen: seq<nat>,
             ghost matrix: array2<real>, ghost split: Split,
             ghost rounds: seq<seq<seq<nat>>>, ghost cleaned: Result<Split>)
    requires IsSqrt(sqrt)
    requires |pagerank| == |sentences|
    // the intermediate values: the similarity matrix of the preprocessed
    // sentences, the ranking cut of lines 55-65, and the cleaning run
    ensures var prep := PreprocessSentences(sentences, stopWords);
            var entropies := Entropies(prep);
            && |prep| == |sentences|
            && matrix.Length0 == matrix.Length1 == |sentences|
            && IsSimilarityMatrix(matrix, WordLists(prep), stopWords, sqrt)
            && split == SplitRanking(RankedIndices(Weighted(pagerank, entropies)), SummarySize(|sentences|))
            && AllBelow(split.qualifiers, |sentences|) && AllBelow(split.nonQualifiers, |sentences|)
            && CleanRun(matrix, entropies, split.qualifiers, split.nonQualifiers, rounds, cleaned)
    // the summary: the cleaned qualifiers in ascending order, or the cleaning error
    ensures summary.Failure? <==> cleaned.Failure?
    ensures summary.Failure? ==> summary.error == cleaned.error
    ensures cleaned.Success? ==>
              && chosen == SortAscending(cleaned.value.qualifiers)
              && Refilled(split.qualifiers, split.nonQualifiers,
                          cleaned.value.qualifiers, cleaned.value.nonQualifiers, |sentences|)
    // nothing detected: the top of the ranking, in ascending order
    ensures SimilarQualifiers(matrix, split.qualifiers) == {} ==> chosen == SortAscending(split.qualifiers)
    // the only error that escapes is the unpacking one of line 179
    ensures summary.Failure? ==> summary.error == ValueError
    // round(N / 4) clamped to [2, 10] sentences, or all of them when fewer
    ensures summary.Success? ==>
              && |chosen| == (if SummarySize(|sentences|) <= |sentences|
                              then SummarySize(|sentences|) else |sentences|)
              && AllBelow(chosen, |sentences|) && Increasing(chosen)
              && summary.value == JoinWithSpace(Pick(sentences, chosen))
    // up to two sentences: the summary is the whole text
    ensures |sentences| <= 2 ==> summary == Success(JoinWithSpace(sentences))
  {
    var prep := PreprocessSentences(sentences, stopWords);
    var entropies := Entropies(prep);
    var similarity := BuildSimilarityMatrix(WordLists(prep), stopWords, sqrt);
    matrix := similarity;
    assert IsSimilarityMatrix(matrix, WordLists(prep), stopWords, sqrt);
    var ranked := SplitByScore(pagerank, entropies);
    var result;
    result, rounds := CleanQualifiers(ranked.qualifiers, ranked.nonQualifiers, similarity, entropies);
    split, cleaned := ranked, result;
    if result.Failure? {
      summary, chosen := Failure(result.error), [];
      return;
    }
    var qualifiers := result.value.qualifiers;
    PrefixDistinct(qualifiers, result.value.nonQualifiers);
    var text;
    text, chosen := Emit(sentences, qualifiers);
    summary := Success(text);
  }
}
