/** Sentence preprocessing of the summarizer: the normalised words of each
    sentence and its "entropy", the fraction of words that are not stop-words. */
module SummaryPreprocess {
  import opened Text

  /** A preprocessed sentence: its normalised words and its entropy. */
  datatype Preprocessed = Preprocessed(words: seq<string>, entropy: real)

  /** True of a word with no punctuation and no upper-case letter. */
  predicate IsNormalized(w: string)
  {
    forall j :: 0 <= j < |w| ==> w[j] !in Punctuation && !IsUpper(w[j])
  }

  /** The words of one sentence: split on single spaces, each word stripped of
      punctuation and lower-cased. A word made only of punctuation becomes "". */
  function Words(sentence: string): (words: seq<string>)
    ensures |words| == CountChar(sentence, ' ') + 1
    ensures forall i :: 0 <= i < |words| ==> IsNormalized(words[i])
  {
    var raw := SplitOnSpace(sentence);
    seq(|raw|, i requires 0 <= i < |raw| => NormalizeWord(raw[i]))
  }

  /** Number of words that are not stop-words (the empty word included). */
  function ContentCount(words: seq<string>, stopWords: seq<string>): (n: nat)
    ensures n <= |words|
  {
    if words == [] then 0
    else (if words[0] in stopWords then 0 else 1) + ContentCount(words[1..], stopWords)
  }

  lemma {:induction false} ContentCountAll(words: seq<string>, stopWords: seq<string>)
    ensures ContentCount(words, stopWords) == |words|
            <==> forall i :: 0 <= i < |words| ==> words[i] !in stopWords
  {
    if words != [] {
      ContentCountAll(words[1..], stopWords);
      assert forall i :: 1 <= i < |words| ==> words[i] == words[1..][i - 1];
    }
  }

  lemma {:induction false} ContentCountNone(words: seq<string>, stopWords: seq<string>)
    ensures ContentCount(words, stopWords) == 0
            <==> forall i :: 0 <= i < |words| ==> words[i] in stopWords
  {
    if words != [] {
      ContentCountNone(words[1..], stopWords);
      assert forall i :: 1 <= i < |words| ==> words[i] == words[1..][i - 1];
    }
  }

  /** `mean(1 if word not in stop_words else 0 for word in sentence)`; the mean of
      an empty list raises, and the summarizer never passes one. */
  function Entropy(words: seq<string>, stopWords: seq<string>): (e: real)
    requires words != []
    ensures 0.0 <= e <= 1.0
    ensures e * |words| as real == ContentCount(words, stopWords) as real
    ensures e == 1.0 <==> forall i :: 0 <= i < |words| ==> words[i] !in stopWords
    ensures e == 0.0 <==> forall i :: 0 <= i < |words| ==> words[i] in stopWords
  {
    ContentCountAll(words, stopWords);
    ContentCountNone(words, stopWords);
    var count := ContentCount(words, stopWords);
    Fraction(count, |words|);
    count as real / |words| as real
  }

  lemma Fraction(a: nat, n: nat)
    requires 0 < n && a <= n
    ensures var e := a as real / n as real;
            && 0.0 <= e <= 1.0
            && e * n as real == a as real
            && (e == 1.0 <==> a == n)
            && (e == 0.0 <==> a == 0)
  {
    var e, total := a as real / n as real, n as real;
    assert e * total == a as real;
    ScaleOrder(e, total);
  }

  /** Scaling by a positive factor keeps a value's position relative to 0 and 1. */
  lemma ScaleOrder(e: real, total: real)
    requires 0.0 < total
    ensures e < 0.0 ==> e * total < 0.0
    ensures e > 1.0 ==> e * total > total
    ensures e * total == total ==> e == 1.0
  {
  }

  /** One sentence as `_preprocess_sentences` yields it: its words and their entropy. */
  function PreprocessSentence(sentence: string, stopWords: seq<string>): (p: Preprocessed)
    ensures |p.words| == CountChar(sentence, ' ') + 1
    ensures p.words != [] && p.entropy == Entropy(p.words, stopWords)
  {
    var words := Words(sentence);
    Preprocessed(words, Entropy(words, stopWords))
  }

  /** `_preprocess_sentences`: one entry per sentence, in order. */
  function PreprocessSentences(sentences: seq<string>, stopWords: seq<string>): (r: seq<Preprocessed>)
    ensures |r| == |sentences|
    ensures forall i :: 0 <= i < |r| ==> r[i] == PreprocessSentence(sentences[i], stopWords)
  {
    seq(|sentences|, i requires 0 <= i < |sentences| => PreprocessSentence(sentences[i], stopWords))
  }
}
