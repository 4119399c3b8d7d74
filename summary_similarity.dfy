/** The sentence-similarity graph of the summarizer: bag-of-words count vectors
    over the union vocabulary of two sentences, their cosine similarity, and the
    N x N similarity matrix with a zero diagonal. */
module SummarySimilarity {
  import opened SummaryPreprocess
  import opened RealSqrt
  import opened Wrappers

  /** The similarity threshold above which two summary sentences count as duplicates. */
  const DuplicateThreshold: real := 0.75

  predicate NoDuplicates<T(==)>(s: seq<T>)
  {
    forall i, j :: 0 <= i < j < |s| ==> s[i] != s[j]
  }

  /** The distinct words of `words`. Python builds `list(set(sent1 + sent2))`, whose
      order is arbitrary; the model fixes first-occurrence order. */
  function Vocabulary(words: seq<string>): (vocab: seq<string>)
    ensures NoDuplicates(vocab)
    ensures forall w :: w in vocab <==> w in words
  {
    if words == [] then []
    else
      var init := Vocabulary(words[..|words| - 1]);
      var last := words[|words| - 1];
      assert forall w :: w in words <==> w in words[..|words| - 1] || w == last;
      if last in init then init else init + [last]
  }

  /** `all_words.index(word)`: the position of `word` in the vocabulary. */
  function IndexOf(vocab: seq<string>, word: string): (k: nat)
    requires word in vocab
    ensures k < |vocab| && vocab[k] == word
    ensures forall j :: 0 <= j < k ==> vocab[j] != word
  {
    if vocab[0] == word then 0 else 1 + IndexOf(vocab[1..], word)
  }

  /** How often `w` occurs in `sentence` as a word that is not a stop-word. */
  function Occurrences(sentence: seq<string>, w: string, stopWords: seq<string>): nat
  {
    if sentence == [] then 0
    else
      var last := sentence[|sentence| - 1];
      Occurrences(sentence[..|sentence| - 1], w, stopWords)
        + (if last == w && last !in stopWords then 1 else 0)
  }

  /** The term-count vector of `sentence` over `vocab`, stop-words excluded. */
  function Counts(sentence: seq<string>, vocab: seq<string>, stopWords: seq<string>): (v: seq<nat>)
    ensures |v| == |vocab|
  {
    seq(|vocab|, j requires 0 <= j < |vocab| => Occurrences(sentence, vocab[j], stopWords))
  }

  function Sum(v: seq<nat>): nat
  {
    if v == [] then 0 else v[0] + Sum(v[1..])
  }

  /** Adding one at one position adds one to the sum. */
  lemma {:induction false} SumIncrement(v: seq<nat>, k: nat)
    requires k < |v|
    ensures Sum(v[k := v[k] + 1]) == Sum(v) + 1
  {
    if k > 0 {
      SumIncrement(v[1..], k - 1);
      assert v[k := v[k] + 1][1..] == v[1..][k - 1 := v[k] + 1];
    }
  }

  lemma {:induction false} ContentCountSnoc(words: seq<string>, w: string, stopWords: seq<string>)
    ensures ContentCount(words + [w], stopWords)
            == ContentCount(words, stopWords) + (if w in stopWords then 0 else 1)
  {
    if words != [] {
      assert (words + [w])[1..] == words[1..] + [w];
      ContentCountSnoc(words[1..], w, stopWords);
    }
  }

  /** Counting one more word changes the vector at the word's position only. */
  lemma CountsSnoc(sentence: seq<string>, w: string, vocab: seq<string>, stopWords: seq<string>)
    requires NoDuplicates(vocab) && w in vocab
    ensures var k := IndexOf(vocab, w);
            Counts(sentence + [w], vocab, stopWords)
            == if w in stopWords then Counts(sentence, vocab, stopWords)
               else Counts(sentence, vocab, stopWords)[k := Counts(sentence, vocab, stopWords)[k] + 1]
  {
    var s := sentence + [w];
    assert s[..|s| - 1] == sentence;
  }

  /** The entries of a count vector add up to the number of content words, when
      the vocabulary holds every word of the sentence. */
  lemma {:induction false} CountsSum(sentence: seq<string>, vocab: seq<string>, stopWords: seq<string>)
    requires NoDuplicates(vocab)
    requires forall w :: w in sentence ==> w in vocab
    ensures Sum(Counts(sentence, vocab, stopWords)) == ContentCount(sentence, stopWords)
  {
    if sentence == [] {
      var v := Counts(sentence, vocab, stopWords);
      ZeroSum(v);
    } else {
      var init := sentence[..|sentence| - 1];
      var w := sentence[|sentence| - 1];
      assert sentence == init + [w];
      assert w in vocab;
      assert forall x :: x in init ==> x in sentence;
      CountsSum(init, vocab, stopWords);
      var before := Counts(init, vocab, stopWords);
      CountsSnoc(init, w, vocab, stopWords);
      ContentCountSnoc(init, w, stopWords);
      if w !in stopWords {
        var k := IndexOf(vocab, w);
        SumIncrement(before, k);
        assert Counts(sentence, vocab, stopWords) == before[k := before[k] + 1];
      } else {
        assert Counts(sentence, vocab, stopWords) == before;
      }
    }
  }

  lemma {:induction false} ZeroSum(v: seq<nat>)
    requires forall j :: 0 <= j < |v| ==> v[j] == 0
    ensures Sum(v) == 0
  {
    if v != [] {
      ZeroSum(v[1..]);
    }
  }

  /** The dot product of two count vectors. */
  function Dot(u: seq<nat>, v: seq<nat>): nat
    requires |u| == |v|
  {
    if u == [] then 0 else u[0] * v[0] + Dot(u[1..], v[1..])
  }

  /** A vector's dot product with itself is zero exactly when its sum is. */
  lemma {:induction false} SelfDotZero(v: seq<nat>)
    ensures Dot(v, v) == 0 <==> Sum(v) == 0
  {
    if v != [] {
      SelfDotZero(v[1..]);
      assert v[0] * v[0] == 0 <==> v[0] == 0;
    }
  }

  /** `nltk.cluster.cosine_distance(u, v)`, that is
      1 - dot(u, v) / (sqrt(dot(u, u)) * sqrt(dot(v, v))). `None` stands for the NaN
      numpy produces when either vector is all zeros (a division 0 / 0). */
  function CosineDistance(u: seq<nat>, v: seq<nat>, sqrt: real -> real): Option<real>
    requires IsSqrt(sqrt)
    requires |u| == |v|
  {
    var uu := Dot(u, u);
    var vv := Dot(v, v);
    if uu == 0 || vv == 0 then None
    else Some(1.0 - Dot(u, v) as real / Norms(uu, vv, sqrt))
  }

  /** The product of the two vectors' lengths, from their squared lengths. */
  function Norms(uu: nat, vv: nat, sqrt: real -> real): (p: real)
    requires IsSqrt(sqrt) && uu != 0 && vv != 0
    ensures 0.0 < p
  {
    SqrtPositive(sqrt, uu as real);
    SqrtPositive(sqrt, vv as real);
    sqrt(uu as real) * sqrt(vv as real)
  }

  lemma NormsSwap(uu: nat, vv: nat, sqrt: real -> real)
    requires IsSqrt(sqrt)
    ensures uu != 0 && vv != 0 ==> Norms(uu, vv, sqrt) == Norms(vv, uu, sqrt)
  {
    var a, b := sqrt(uu as real), sqrt(vv as real);
    assert a * b == b * a;
  }

  /** `_sentence_similarity`: 1 - cosine distance of the two count vectors over
      their union vocabulary, or 0.0 when the distance is NaN. */
  function Similarity(sent1: seq<string>, sent2: seq<string>, stopWords: seq<string>,
                      sqrt: real -> real): real
    requires IsSqrt(sqrt)
  {
    var vocab := Vocabulary(sent1 + sent2);
    match CosineDistance(Counts(sent1, vocab, stopWords), Counts(sent2, vocab, stopWords), sqrt)
    case None => 0.0
    case Some(d) => 1.0 - d
  }

  /** The distance is NaN exactly when one of the sentences has no content word;
      such a sentence is similar to nothing (its similarity is 0.0). */
  lemma NaNIffNoContent(sent1: seq<string>, sent2: seq<string>, stopWords: seq<string>, sqrt: real -> real)
    requires IsSqrt(sqrt)
    ensures var vocab := Vocabulary(sent1 + sent2);
            CosineDistance(Counts(sent1, vocab, stopWords), Counts(sent2, vocab, stopWords), sqrt).None?
            <==> ContentCount(sent1, stopWords) == 0 || ContentCount(sent2, stopWords) == 0
    ensures ContentCount(sent1, stopWords) == 0 || ContentCount(sent2, stopWords) == 0
            ==> Similarity(sent1, sent2, stopWords, sqrt) == 0.0
  {
    var vocab := Vocabulary(sent1 + sent2);
    CountsSum(sent1, vocab, stopWords);
    CountsSum(sent2, vocab, stopWords);
    SelfDotZero(Counts(sent1, vocab, stopWords));
    SelfDotZero(Counts(sent2, vocab, stopWords));
  }

  /** The similarity is never negative. */
  lemma SimilarityNonNegative(sent1: seq<string>, sent2: seq<string>, stopWords: seq<string>, sqrt: real -> real)
    requires IsSqrt(sqrt)
    ensures 0.0 <= Similarity(sent1, sent2, stopWords, sqrt)
  {
    var vocab := Vocabulary(sent1 + sent2);
    var u, v := Counts(sent1, vocab, stopWords), Counts(sent2, vocab, stopWords);
    if Dot(u, u) != 0 && Dot(v, v) != 0 {
      SqrtPositive(sqrt, Dot(u, u) as real);
      SqrtPositive(sqrt, Dot(v, v) as real);
      var p := sqrt(Dot(u, u) as real) * sqrt(Dot(v, v) as real);
      assert 0.0 < p;
      assert 1.0 - (1.0 - Dot(u, v) as real / p) == Dot(u, v) as real / p;
    }
  }

  /** Two sentences with the same words and at least one content word have
      similarity 1.0, above the duplicate threshold. */
  lemma RepeatedSentenceSimilarity(sent: seq<string>, stopWords: seq<string>, sqrt: real -> real)
    requires IsSqrt(sqrt)
    requires ContentCount(sent, stopWords) > 0
    ensures Similarity(sent, sent, stopWords, sqrt) == 1.0
    ensures Similarity(sent, sent, stopWords, sqrt) > DuplicateThreshold
  {
    var vocab := Vocabulary(sent + sent);
    var u := Counts(sent, vocab, stopWords);
    NaNIffNoContent(sent, sent, stopWords, sqrt);
    var uu := Dot(u, u) as real;
    assert 0.0 < uu;
    assert sqrt(uu) * sqrt(uu) == uu;
    assert uu / (sqrt(uu) * sqrt(uu)) == 1.0;
  }

  // ---------------------------------------------------------------- vocabulary order

  /** The dot product of two sentences' counts, summed word by word over `vocab`. */
  function DotOver(vocab: seq<string>, sent1: seq<string>, sent2: seq<string>, stopWords: seq<string>): nat
  {
    if vocab == [] then 0
    else Occurrences(sent1, vocab[0], stopWords) * Occurrences(sent2, vocab[0], stopWords)
         + DotOver(vocab[1..], sent1, sent2, stopWords)
  }

  /** The dot product of two count vectors over `vocab` is `DotOver(vocab, ...)`. */
  lemma {:induction false} DotOfCounts(vocab: seq<string>, sent1: seq<string>, sent2: seq<string>,
                                       stopWords: seq<string>)
    ensures Dot(Counts(sent1, vocab, stopWords), Counts(sent2, vocab, stopWords))
            == DotOver(vocab, sent1, sent2, stopWords)
  {
    if vocab != [] {
      assert Counts(sent1, vocab, stopWords)[1..] == Counts(sent1, vocab[1..], stopWords);
      assert Counts(sent2, vocab, stopWords)[1..] == Counts(sent2, vocab[1..], stopWords);
      DotOfCounts(vocab[1..], sent1, sent2, stopWords);
    }
  }

  lemma {:induction false} DotOverSwap(vocab: seq<string>, sent1: seq<string>, sent2: seq<string>,
                                       stopWords: seq<string>)
    ensures DotOver(vocab, sent1, sent2, stopWords) == DotOver(vocab, sent2, sent1, stopWords)
  {
    if vocab != [] {
      DotOverSwap(vocab[1..], sent1, sent2, stopWords);
    }
  }

  /** Taking word `k` out of the vocabulary takes its term out of the sum. */
  lemma {:induction false} DotOverRemove(vocab: seq<string>, k: nat, sent1: seq<string>, sent2: seq<string>,
                                         stopWords: seq<string>)
    requires k < |vocab|
    ensures DotOver(vocab, sent1, sent2, stopWords)
            == Occurrences(sent1, vocab[k], stopWords) * Occurrences(sent2, vocab[k], stopWords)
               + DotOver(vocab[..k] + vocab[k + 1..], sent1, sent2, stopWords)
  {
    if k > 0 {
      DotOverRemove(vocab[1..], k - 1, sent1, sent2, stopWords);
      assert vocab[..k] + vocab[k + 1..] == [vocab[0]] + (vocab[1..][..k - 1] + vocab[1..][k..]);
    } else {
      assert vocab[..k] + vocab[k + 1..] == vocab[1..];
    }
  }

  /** Deleting entry `k` of a duplicate-free list deletes exactly that word. */
  lemma RemoveAt(v: seq<string>, k: nat)
    requires NoDuplicates(v) && k < |v|
    ensures var rest := v[..k] + v[k + 1..];
            && NoDuplicates(rest)
            && forall x :: x in rest <==> x in v && x != v[k]
  {
    var rest := v[..k] + v[k + 1..];
    assert forall i :: 0 <= i < |rest| ==> rest[i] == v[if i < k then i else i + 1];
    forall x | x in v && x != v[k] ensures x in rest {
      var i :| 0 <= i < |v| && v[i] == x;
      assert rest[if i < k then i else i - 1] == x;
    }
  }

  /** A duplicate-free list has as many members as entries. */
  lemma {:induction false} DistinctCount(v: seq<string>)
    requires NoDuplicates(v)
    ensures |(set w | w in v)| == |v|
  {
    if v != [] {
      var rest := v[1..];
      DistinctCount(rest);
      assert v[0] !in rest;
      assert (set w | w in v) == {v[0]} + (set w | w in rest);
    }
  }

  lemma SameMembersSameLength(v1: seq<string>, v2: seq<string>)
    requires NoDuplicates(v1) && NoDuplicates(v2)
    requires forall w :: w in v1 <==> w in v2
    ensures |v1| == |v2|
  {
    DistinctCount(v1);
    DistinctCount(v2);
    assert (set w | w in v1) == (set w | w in v2);
  }

  /** Two duplicate-free vocabularies with the same words give the same sum,
      whatever their order. */
  lemma {:induction false} DotOverOrderFree(v1: seq<string>, v2: seq<string>, sent1: seq<string>,
                                            sent2: seq<string>, stopWords: seq<string>)
    requires NoDuplicates(v1) && NoDuplicates(v2)
    requires forall w :: w in v1 <==> w in v2
    ensures DotOver(v1, sent1, sent2, stopWords) == DotOver(v2, sent1, sent2, stopWords)
    decreases |v1|
  {
    if v1 == [] {
      SameMembersSameLength(v1, v2);
    } else {
      var w := v1[0];
      assert w in v2;
      var k :| 0 <= k < |v2| && v2[k] == w;
      RemoveAt(v2, k);
      RemoveAt(v1, 0);
      assert v1[..0] + v1[1..] == v1[1..];
      DotOverOrderFree(v1[1..], v2[..k] + v2[k + 1..], sent1, sent2, stopWords);
      DotOverRemove(v2, k, sent1, sent2, stopWords);
    }
  }

  /** The cosine distance depends only on the three dot products it is built from. */
  lemma CosineOfDots(u1: seq<nat>, v1: seq<nat>, u2: seq<nat>, v2: seq<nat>, sqrt: real -> real)
    requires IsSqrt(sqrt) && |u1| == |v1| && |u2| == |v2|
    requires Dot(u1, u1) == Dot(v2, v2) && Dot(v1, v1) == Dot(u2, u2) && Dot(u1, v1) == Dot(u2, v2)
    ensures CosineDistance(u1, v1, sqrt) == CosineDistance(u2, v2, sqrt)
  {
    NormsSwap(Dot(u1, u1), Dot(v1, v1), sqrt);
  }

  /** `list(set(sent1 + sent2))` may come in any order: every duplicate-free
      listing of the two sentences' words gives the same cosine distance. */
  lemma AnyVocabularyOrder(sent1: seq<string>, sent2: seq<string>, vocab: seq<string>,
                           stopWords: seq<string>, sqrt: real -> real)
    requires IsSqrt(sqrt)
    requires NoDuplicates(vocab) && forall w :: w in vocab <==> w in sent1 + sent2
    ensures var first := Vocabulary(sent1 + sent2);
            CosineDistance(Counts(sent1, vocab, stopWords), Counts(sent2, vocab, stopWords), sqrt)
            == CosineDistance(Counts(sent1, first, stopWords), Counts(sent2, first, stopWords), sqrt)
  {
    var first := Vocabulary(sent1 + sent2);
    assert forall w :: w in vocab <==> w in first;
    var u1, v1 := Counts(sent1, vocab, stopWords), Counts(sent2, vocab, stopWords);
    var u2, v2 := Counts(sent1, first, stopWords), Counts(sent2, first, stopWords);
    assert Dot(u1, u1) == Dot(u2, u2) by {
      DotOfCounts(vocab, sent1, sent1, stopWords);
      DotOfCounts(first, sent1, sent1, stopWords);
      DotOverOrderFree(vocab, first, sent1, sent1, stopWords);
    }
    assert Dot(v1, v1) == Dot(v2, v2) by {
      DotOfCounts(vocab, sent2, sent2, stopWords);
      DotOfCounts(first, sent2, sent2, stopWords);
      DotOverOrderFree(vocab, first, sent2, sent2, stopWords);
    }
    assert Dot(u1, v1) == Dot(u2, v2) by {
      DotOfCounts(vocab, sent1, sent2, stopWords);
      DotOfCounts(first, sent1, sent2, stopWords);
      DotOverOrderFree(vocab, first, sent1, sent2, stopWords);
    }
    SameDotsSameCosine(u1, v1, u2, v2, sqrt);
  }

  lemma SameDotsSameCosine(u1: seq<nat>, v1: seq<nat>, u2: seq<nat>, v2: seq<nat>, sqrt: real -> real)
    requires IsSqrt(sqrt) && |u1| == |v1| && |u2| == |v2|
    requires Dot(u1, u1) == Dot(u2, u2) && Dot(v1, v1) == Dot(v2, v2) && Dot(u1, v1) == Dot(u2, v2)
    ensures CosineDistance(u1, v1, sqrt) == CosineDistance(u2, v2, sqrt)
  {
  }

  /** The similarity is symmetric: comparing `sent2` with `sent1` builds the
      vocabulary in another order, which does not matter. */
  lemma SimilaritySymmetric(sent1: seq<string>, sent2: seq<string>, stopWords: seq<string>, sqrt: real -> real)
    requires IsSqrt(sqrt)
    ensures Similarity(sent1, sent2, stopWords, sqrt) == Similarity(sent2, sent1, stopWords, sqrt)
  {
    var v1, v2 := Vocabulary(sent1 + sent2), Vocabulary(sent2 + sent1);
    assert forall w :: w in v1 <==> w in v2;
    DotOfCounts(v1, sent1, sent1, stopWords);
    DotOfCounts(v1, sent2, sent2, stopWords);
    DotOfCounts(v1, sent1, sent2, stopWords);
    DotOfCounts(v2, sent2, sent2, stopWords);
    DotOfCounts(v2, sent1, sent1, stopWords);
    DotOfCounts(v2, sent2, sent1, stopWords);
    DotOverOrderFree(v1, v2, sent1, sent1, stopWords);
    DotOverOrderFree(v1, v2, sent2, sent2, stopWords);
    DotOverOrderFree(v1, v2, sent1, sent2, stopWords);
    DotOverSwap(v2, sent2, sent1, stopWords);
    CosineOfDots(Counts(sent1, v1, stopWords), Counts(sent2, v1, stopWords),
                 Counts(sent2, v2, stopWords), Counts(sent1, v2, stopWords), sqrt);
  }

  // ---------------------------------------------------------------- imperative code

  /** The counting loop of `_sentence_similarity`: one vector slot per vocabulary
      word, incremented for every non-stop-word of the sentence. */
  method CountVector(sentence: seq<string>, vocab: seq<string>, stopWords: seq<string>)
    returns (v: seq<nat>)
    requires NoDuplicates(vocab)
    requires forall w :: w in sentence ==> w in vocab
    ensures v == Counts(sentence, vocab, stopWords)
    ensures Sum(v) == ContentCount(sentence, stopWords)
  {
    v := seq(|vocab|, _ => 0);
    for i := 0 to |sentence|
      invariant v == Counts(sentence[..i], vocab, stopWords)
    {
      var word := sentence[i];
      assert sentence[..i + 1] == sentence[..i] + [word];
      CountsSnoc(sentence[..i], word, vocab, stopWords);
      if word in stopWords {
        continue;
      }
      var k := IndexOf(vocab, word);
      v := v[k := v[k] + 1];
    }
    assert sentence[..|sentence|] == sentence;
    CountsSum(sentence, vocab, stopWords);
  }

  /** `_sentence_similarity(sent1, sent2, stop_words)`. */
  method SentenceSimilarity(sent1: seq<string>, sent2: seq<string>, stopWords: seq<string>,
                            sqrt: real -> real)
    returns (similarity: real)
    requires IsSqrt(sqrt)
    ensures similarity == Similarity(sent1, sent2, stopWords, sqrt)
    ensures 0.0 <= similarity
    ensures ContentCount(sent1, stopWords) == 0 || ContentCount(sent2, stopWords) == 0
            ==> similarity == 0.0
  {
    var allWords := Vocabulary(sent1 + sent2);
    var vector1 := CountVector(sent1, allWords, stopWords);
    var vector2 := CountVector(sent2, allWords, stopWords);
    var result := CosineDistance(vector1, vector2, sqrt);
    similarity := if result.Some? then 1.0 - result.value else 0.0;
    SimilarityNonNegative(sent1, sent2, stopWords, sqrt);
    NaNIffNoContent(sent1, sent2, stopWords, sqrt);
  }

  /** The matrix `_build_similarity_matrix` fills: zero on the diagonal, the
      similarity of the two sentences elsewhere. */
  ghost predicate IsSimilarityMatrix(m: array2<real>, sentences: seq<seq<string>>, stopWords: seq<string>,
                                     sqrt: real -> real)
    reads m
    requires IsSqrt(sqrt)
  {
    && m.Length0 == m.Length1 == |sentences|
    && forall i, j :: 0 <= i < |sentences| && 0 <= j < |sentences| ==>
         m[i, j] == if i == j then 0.0 else Similarity(sentences[i], sentences[j], stopWords, sqrt)
  }

  /** `_build_similarity_matrix`: a zeroed N x N matrix whose off-diagonal entries
      are filled from `_sentence_similarity`; the diagonal stays 0. */
  method BuildSimilarityMatrix(sentences: seq<seq<string>>, stopWords: seq<string>, sqrt: real -> real)
    returns (matrix: array2<real>)
    requires IsSqrt(sqrt)
    ensures fresh(matrix)
    ensures matrix.Length0 == |sentences| && matrix.Length1 == |sentences|
    ensures forall i :: 0 <= i < |sentences| ==> matrix[i, i] == 0.0
    ensures forall i, j :: 0 <= i < |sentences| && 0 <= j < |sentences| && i != j ==>
              matrix[i, j] == Similarity(sentences[i], sentences[j], stopWords, sqrt)
    ensures forall i, j :: 0 <= i < |sentences| && 0 <= j < |sentences| ==> 0.0 <= matrix[i, j]
    ensures forall i, j :: 0 <= i < |sentences| && 0 <= j < |sentences| ==> matrix[i, j] == matrix[j, i]
  {
    var n := |sentences|;
    matrix := new real[n, n]((_, _) => 0.0);
    for idx1 := 0 to n
      invariant forall i, j :: 0 <= i < n && 0 <= j < n ==>
                  matrix[i, j] == if i < idx1 && i != j
                                  then Similarity(sentences[i], sentences[j], stopWords, sqrt) else 0.0
      invariant forall i, j :: 0 <= i < n && 0 <= j < n ==> 0.0 <= matrix[i, j]
    {
      for idx2 := 0 to n
        invariant forall i, j :: 0 <= i < n && 0 <= j < n ==>
                    matrix[i, j] == if (i < idx1 || (i == idx1 && j < idx2)) && i != j
                                    then Similarity(sentences[i], sentences[j], stopWords, sqrt) else 0.0
        invariant forall i, j :: 0 <= i < n && 0 <= j < n ==> 0.0 <= matrix[i, j]
      {
        if idx1 == idx2 {
          continue;
        }
        var similarity := SentenceSimilarity(sentences[idx1], sentences[idx2], stopWords, sqrt);
        matrix[idx1, idx2] := similarity;
      }
    }
    forall i, j | 0 <= i < n && 0 <= j < n
      ensures Similarity(sentences[i], sentences[j], stopWords, sqrt)
              == Similarity(sentences[j], sentences[i], stopWords, sqrt)
    {
      SimilaritySymmetric(sentences[i], sentences[j], stopWords, sqrt);
    }
  }
}
