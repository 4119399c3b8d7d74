/** `SentimentAnalyzer`: a lexicon score per token, scaled by booster adverbs
    among its direct dependants, summed per sentence, squashed into (-1, 1) and
    summed over the article. The spaCy parse and `math.sqrt` are parameters. */
module Sentiment {
  import opened Text
  import opened RealSqrt

  /** A token of the parse: its lemma, its coarse part-of-speech tag and its
      direct syntactic dependants. */
  datatype Token = Token(lemmaText: string, pos: string, children: seq<Token>)

  /** The four word lists the analyzer loads once, one lemma per line; the code
      only ever asks whether a word is in a list, so each is a set here. */
  datatype Lexicons = Lexicons(increase: set<string>, decrease: set<string>,
                               negatives: set<string>, positives: set<string>)

  // ---------------------------------------------------------------- one token

  /** The lexicon score before boosting (sentiment_analyzer.py:80-85): the
      negative list is consulted first, so a lemma in both lists scores -1. */
  function BaseSentiment(lex: Lexicons, word: string): (b: int)
    ensures b == -1 <==> Lower(word) in lex.negatives
    ensures b == 1 <==> Lower(word) !in lex.negatives && Lower(word) in lex.positives
    ensures b == 0 <==> Lower(word) !in lex.negatives && Lower(word) !in lex.positives
  {
    var w := Lower(word);
    if w in lex.negatives then -1 else if w in lex.positives then 1 else 0
  }

  /** A child that multiplies the score by 1.2: an adverb in the increase list. */
  predicate Increases(lex: Lexicons, child: Token)
  {
    child.pos == "ADV" && Lower(child.lemmaText) in lex.increase
  }

  /** A child that multiplies the score by 0.8: an adverb in the decrease list
      and not in the increase list, which is consulted first. */
  predicate Decreases(lex: Lexicons, child: Token)
  {
    child.pos == "ADV" && Lower(child.lemmaText) !in lex.increase && Lower(child.lemmaText) in lex.decrease
  }

  /** `_apply_token_boosters` (lines 87-104): the running score after each
      child, in the order the loop visits them: times 1.2 for a child that
      increases, times 0.8 for one that decreases, unchanged for any other. */
  function Boosted(lex: Lexicons, sentiment: real, children: seq<Token>): real
  {
    if children == [] then sentiment
    else
      var before := Boosted(lex, sentiment, children[..|children| - 1]);
      var child := children[|children| - 1];
      if Increases(lex, child) then 1.2 * before
      else if Decreases(lex, child) then 0.8 * before
      else before
  }

  /** The product of the children's factors. */
  function Boost(lex: Lexicons, children: seq<Token>): real
  {
    Boosted(lex, 1.0, children)
  }

  lemma Rearrange(f: real, x: real, y: real)
    ensures (x * f) * y == f * (x * y) == x * (f * y)
  {
  }

  /** Boosting scales the score: the result is the score times the product of
      the factors. */
  lemma {:induction false} BoostedScales(lex: Lexicons, sentiment: real, children: seq<Token>)
    ensures Boosted(lex, sentiment, children) == sentiment * Boost(lex, children)
  {
    if children != [] {
      var init := children[..|children| - 1];
      BoostedScales(lex, sentiment, init);
      Rearrange(1.2, sentiment, Boost(lex, init));
      Rearrange(0.8, sentiment, Boost(lex, init));
    }
  }

  /** One child: only adverbs boost, the increase list wins over the decrease
      list, and a child in neither list, or not an adverb, leaves the score alone. */
  lemma BoostOfOne(lex: Lexicons, child: Token)
    ensures child.pos != "ADV" ==> Boost(lex, [child]) == 1.0
    ensures child.pos == "ADV" && Lower(child.lemmaText) in lex.increase ==> Boost(lex, [child]) == 1.2
    ensures (child.pos == "ADV" && Lower(child.lemmaText) !in lex.increase
             && Lower(child.lemmaText) in lex.decrease) ==> Boost(lex, [child]) == 0.8
    ensures (Lower(child.lemmaText) !in lex.increase && Lower(child.lemmaText) !in lex.decrease)
            ==> Boost(lex, [child]) == 1.0
  {
    assert [child][..0] == [];
    assert Boosted(lex, 1.0, []) == 1.0;
  }

  /** Every factor is positive, so a positive score stays positive. */
  lemma {:induction false} BoostedPositive(lex: Lexicons, sentiment: real, children: seq<Token>)
    requires 0.0 < sentiment
    ensures 0.0 < Boosted(lex, sentiment, children)
  {
    if children != [] {
      BoostedPositive(lex, sentiment, children[..|children| - 1]);
    }
  }

  /** `_get_token_sentiment`: the base score, boosted when it is not zero. */
  function TokenScore(lex: Lexicons, token: Token): (r: real)
    ensures r == 0.0 <==> BaseSentiment(lex, token.lemmaText) == 0
    ensures 0.0 < r <==> BaseSentiment(lex, token.lemmaText) == 1
    ensures r < 0.0 <==> BaseSentiment(lex, token.lemmaText) == -1
  {
    BoostedPositive(lex, 1.0, token.children);
    BoostedScales(lex, -1.0, token.children);
    var w := Lower(token.lemmaText);
    if w in lex.negatives then Boosted(lex, -1.0, token.children)
    else if w in lex.positives then Boosted(lex, 1.0, token.children)
    else 0.0
  }

  // ---------------------------------------------------------------- booster algebra

  /** 1.2^a * 0.8^b, built one constant factor at a time. */
  function Power(a: nat, b: nat): real
  {
    if a > 0 then 1.2 * Power(a - 1, b)
    else if b > 0 then 0.8 * Power(a, b - 1)
    else 1.0
  }

  /** A child that increases (`up`) or decreases (`!up`) the score. */
  predicate Boosts(lex: Lexicons, child: Token, up: bool)
  {
    if up then Increases(lex, child) else Decreases(lex, child)
  }

  /** How many children increase (`up`), or decrease (`!up`), the score. */
  function Count(lex: Lexicons, children: seq<Token>, up: bool): nat
  {
    if children == [] then 0
    else Count(lex, children[..|children| - 1], up) + (if Boosts(lex, children[|children| - 1], up) then 1 else 0)
  }

  /** The count of a concatenation is the sum of the counts. */
  lemma {:induction false} CountAppend(lex: Lexicons, c1: seq<Token>, c2: seq<Token>, up: bool)
    ensures Count(lex, c1 + c2, up) == Count(lex, c1, up) + Count(lex, c2, up)
  {
    if c2 == [] {
      assert c1 + c2 == c1;
    } else {
      var init := c2[..|c2| - 1];
      CountAppend(lex, c1, init, up);
      assert (c1 + c2)[..|c1 + c2| - 1] == c1 + init;
    }
  }

  /** Taking any one child out of the count. */
  lemma CountRemove(lex: Lexicons, children: seq<Token>, up: bool, i: nat)
    requires i < |children|
    ensures Count(lex, children, up)
            == Count(lex, children[..i] + children[i + 1..], up) + (if Boosts(lex, children[i], up) then 1 else 0)
  {
    var before, after := children[..i], children[i + 1..];
    assert children == before + [children[i]] + after;
    assert [children[i]][..0] == [];
    CountAppend(lex, before + [children[i]], after, up);
    CountAppend(lex, before, [children[i]], up);
    CountAppend(lex, before, after, up);
  }

  /** The counts do not depend on the order of the children. */
  lemma {:induction false} CountPermutation(lex: Lexicons, c1: seq<Token>, c2: seq<Token>, up: bool)
    requires multiset(c1) == multiset(c2)
    ensures Count(lex, c1, up) == Count(lex, c2, up)
    decreases |c1|
  {
    if c1 != [] {
      var n := |c1|;
      var x := c1[n - 1];
      assert c1 == c1[..n - 1] + [x];
      assert x in multiset(c2);
      var j :| 0 <= j < |c2| && c2[j] == x;
      var rest2 := c2[..j] + c2[j + 1..];
      assert c2 == c2[..j] + [x] + c2[j + 1..];
      assert multiset(c1[..n - 1]) == multiset(c1) - multiset{x};
      assert multiset(rest2) == multiset(c2) - multiset{x};
      CountPermutation(lex, c1[..n - 1], rest2, up);
      CountRemove(lex, c2, up, j);
    } else {
      assert |multiset(c2)| == 0;
    }
  }

  /** One more factor of 0.8, whatever the number of factors of 1.2. */
  lemma {:induction false} PowerDown(a: nat, b: nat)
    ensures Power(a, b + 1) == 0.8 * Power(a, b)
  {
    if a > 0 {
      PowerDown(a - 1, b);
    }
  }

  /** The boost is 1.2^a * 0.8^b, with a increasing and b decreasing children. */
  lemma {:induction false} BoostCounts(lex: Lexicons, children: seq<Token>)
    ensures Boost(lex, children)
            == Power(Count(lex, children, true), Count(lex, children, false))
  {
    if children != [] {
      var init, last := children[..|children| - 1], children[|children| - 1];
      BoostCounts(lex, init);
      var a, b := Count(lex, init, true), Count(lex, init, false);
      if Increases(lex, last) {
        assert Count(lex, children, true) == a + 1 && Count(lex, children, false) == b;
      } else if Decreases(lex, last) {
        assert Count(lex, children, true) == a && Count(lex, children, false) == b + 1;
        PowerDown(a, b);
      } else {
        assert Count(lex, children, true) == a && Count(lex, children, false) == b;
      }
    }
  }

  /** One more child scales the running score by its factor. */
  lemma BoostedSnoc(lex: Lexicons, sentiment: real, children: seq<Token>, i: nat)
    requires i < |children|
    ensures var before, child := Boosted(lex, sentiment, children[..i]), children[i];
            Boosted(lex, sentiment, children[..i + 1])
            == if Increases(lex, child) then 1.2 * before
               else if Decreases(lex, child) then 0.8 * before
               else before
  {
    assert children[..i + 1][..i] == children[..i];
  }

  /** Children with the same counts boost alike. */
  lemma BoostOfCounts(lex: Lexicons, c1: seq<Token>, c2: seq<Token>)
    requires Count(lex, c1, true) == Count(lex, c2, true)
    requires Count(lex, c1, false) == Count(lex, c2, false)
    ensures Boost(lex, c1) == Boost(lex, c2)
  {
    BoostCounts(lex, c1);
    BoostCounts(lex, c2);
  }

  /** The boosted score does not depend on the order of the children. */
  lemma BoostPermutation(lex: Lexicons, c1: seq<Token>, c2: seq<Token>)
    requires multiset(c1) == multiset(c2)
    ensures Boost(lex, c1) == Boost(lex, c2)
  {
    CountPermutation(lex, c1, c2, true);
    CountPermutation(lex, c1, c2, false);
    BoostOfCounts(lex, c1, c2);
  }

  /** Boosters cannot flip or cancel a score, and an unscored token stays at 0
      whatever its children. */
  lemma TokenScoreBoosted(lex: Lexicons, token: Token)
    ensures TokenScore(lex, token)
            == BaseSentiment(lex, token.lemmaText) as real
               * Power(Count(lex, token.children, true), Count(lex, token.children, false))
  {
    BoostedScales(lex, -1.0, token.children);
    BoostCounts(lex, token.children);
  }

  /** Children of the same lemma and tag boost alike. */
  predicate SameShape(c1: seq<Token>, c2: seq<Token>)
  {
    |c1| == |c2| && forall i :: 0 <= i < |c1| ==> c1[i].lemmaText == c2[i].lemmaText && c1[i].pos == c2[i].pos
  }

  lemma {:induction false} BoostedSameShape(lex: Lexicons, sentiment: real, c1: seq<Token>, c2: seq<Token>)
    requires SameShape(c1, c2)
    ensures Boosted(lex, sentiment, c1) == Boosted(lex, sentiment, c2)
  {
    if c1 != [] {
      var n := |c1|;
      BoostedSameShape(lex, sentiment, c1[..n - 1], c2[..n - 1]);
      assert Increases(lex, c1[n - 1]) == Increases(lex, c2[n - 1]);
      assert Decreases(lex, c1[n - 1]) == Decreases(lex, c2[n - 1]);
    }
  }

  /** Only the direct children matter: what lies below them, and whatever is
      not an adverb, plays no part. */
  lemma OnlyDirectChildren(lex: Lexicons, t1: Token, t2: Token)
    requires t1.lemmaText == t2.lemmaText && SameShape(t1.children, t2.children)
    ensures TokenScore(lex, t1) == TokenScore(lex, t2)
  {
    BoostedSameShape(lex, -1.0, t1.children, t2.children);
    BoostedSameShape(lex, 1.0, t1.children, t2.children);
  }

  // ---------------------------------------------------------------- sentences

  /** The sum of the token scores, in token order. */
  function TokenSum(lex: Lexicons, tokens: seq<Token>): real
  {
    if tokens == [] then 0.0
    else TokenSum(lex, tokens[..|tokens| - 1]) + TokenScore(lex, tokens[|tokens| - 1])
  }

  /** `s / sqrt(s * s + 15)`: same sign as s, zero only at zero, strictly inside (-1, 1). */
  function Squash(s: real, sqrt: real -> real): (r: real)
    requires IsSqrt(sqrt)
    ensures 0.0 < r <==> 0.0 < s
    ensures r < 0.0 <==> s < 0.0
    ensures r == 0.0 <==> s == 0.0
    ensures -1.0 < r < 1.0
  {
    var d := sqrt(s * s + 15.0);
    SqrtAboveAbs(sqrt, s, 15.0);
    SquashBounds(s, d);
    s / d
  }

  /** Multiplying by a positive number keeps the sign. */
  lemma SignOfProduct(x: real, d: real)
    requires 0.0 < d
    ensures 0.0 < x * d <==> 0.0 < x
    ensures x * d < 0.0 <==> x < 0.0
    ensures x * d == 0.0 <==> x == 0.0
  {
  }

  lemma SquashBounds(s: real, d: real)
    requires -d < s < d
    ensures var r := s / d;
            && (0.0 < r <==> 0.0 < s) && (r < 0.0 <==> s < 0.0) && (r == 0.0 <==> s == 0.0)
            && -1.0 < r < 1.0
  {
    var r := s / d;
    assert r * d == s;
    assert (1.0 - r) * d == d - s;
    assert (1.0 + r) * d == d + s;
    SignOfProduct(r, d);
    SignOfProduct(1.0 - r, d);
    SignOfProduct(1.0 + r, d);
  }

  /** `_get_sentence_sentiment` on the tokens of one parsed sentence. */
  function SentenceScore(lex: Lexicons, tokens: seq<Token>, sqrt: real -> real): (r: real)
    requires IsSqrt(sqrt)
  {
    Squash(TokenSum(lex, tokens), sqrt)
  }

  /** A sentence with no scored token scores 0. */
  lemma {:induction false} UnscoredSentence(lex: Lexicons, tokens: seq<Token>, sqrt: real -> real)
    requires IsSqrt(sqrt)
    requires forall i :: 0 <= i < |tokens| ==> BaseSentiment(lex, tokens[i].lemmaText) == 0
    ensures SentenceScore(lex, tokens, sqrt) == 0.0
  {
    ZeroSum(lex, tokens);
  }

  lemma {:induction false} ZeroSum(lex: Lexicons, tokens: seq<Token>)
    requires forall i :: 0 <= i < |tokens| ==> BaseSentiment(lex, tokens[i].lemmaText) == 0
    ensures TokenSum(lex, tokens) == 0.0
  {
    if tokens != [] {
      ZeroSum(lex, tokens[..|tokens| - 1]);
    }
  }

  /** A sentence whose scored tokens are all positive scores above 0, and one
      whose scored tokens are all negative scores below 0. */
  lemma {:induction false} PositiveSentence(lex: Lexicons, tokens: seq<Token>, sqrt: real -> real)
    requires IsSqrt(sqrt)
    requires forall i :: 0 <= i < |tokens| ==> BaseSentiment(lex, tokens[i].lemmaText) >= 0
    requires exists i :: 0 <= i < |tokens| && BaseSentiment(lex, tokens[i].lemmaText) == 1
    ensures 0.0 < SentenceScore(lex, tokens, sqrt)
  {
    PositiveSum(lex, tokens);
  }

  lemma {:induction false} PositiveSum(lex: Lexicons, tokens: seq<Token>)
    requires forall i :: 0 <= i < |tokens| ==> BaseSentiment(lex, tokens[i].lemmaText) >= 0
    ensures 0.0 <= TokenSum(lex, tokens)
    ensures (exists i :: 0 <= i < |tokens| && BaseSentiment(lex, tokens[i].lemmaText) == 1)
            ==> 0.0 < TokenSum(lex, tokens)
  {
    if tokens != [] {
      var init := tokens[..|tokens| - 1];
      PositiveSum(lex, init);
      if exists i :: 0 <= i < |tokens| && BaseSentiment(lex, tokens[i].lemmaText) == 1 {
        var i :| 0 <= i < |tokens| && BaseSentiment(lex, tokens[i].lemmaText) == 1;
        if i < |init| {
          assert init[i] == tokens[i];
        }
      }
    }
  }

  lemma {:induction false} NegativeSentence(lex: Lexicons, tokens: seq<Token>, sqrt: real -> real)
    requires IsSqrt(sqrt)
    requires forall i :: 0 <= i < |tokens| ==> BaseSentiment(lex, tokens[i].lemmaText) <= 0
    requires exists i :: 0 <= i < |tokens| && BaseSentiment(lex, tokens[i].lemmaText) == -1
    ensures SentenceScore(lex, tokens, sqrt) < 0.0
  {
    NegativeSum(lex, tokens);
  }

  lemma {:induction false} NegativeSum(lex: Lexicons, tokens: seq<Token>)
    requires forall i :: 0 <= i < |tokens| ==> BaseSentiment(lex, tokens[i].lemmaText) <= 0
    ensures TokenSum(lex, tokens) <= 0.0
    ensures (exists i :: 0 <= i < |tokens| && BaseSentiment(lex, tokens[i].lemmaText) == -1)
            ==> TokenSum(lex, tokens) < 0.0
  {
    if tokens != [] {
      var init := tokens[..|tokens| - 1];
      NegativeSum(lex, init);
      if exists i :: 0 <= i < |tokens| && BaseSentiment(lex, tokens[i].lemmaText) == -1 {
        var i :| 0 <= i < |tokens| && BaseSentiment(lex, tokens[i].lemmaText) == -1;
        if i < |init| {
          assert init[i] == tokens[i];
        }
      }
    }
  }

  // ---------------------------------------------------------------- articles

  /** `__call__`: the plain sum of the sentence scores, in sentence order. */
  function ArticleScore(lex: Lexicons, parse: string -> seq<Token>, sentences: seq<string>,
                        sqrt: real -> real): (r: real)
    requires IsSqrt(sqrt)
  {
    if sentences == [] then 0.0
    else ArticleScore(lex, parse, sentences[..|sentences| - 1], sqrt)
         + SentenceScore(lex, parse(sentences[|sentences| - 1]), sqrt)
  }

  /** No sentence gives 0, and n sentences give a total strictly inside (-n, n). */
  lemma {:induction false} ArticleBounds(lex: Lexicons, parse: string -> seq<Token>,
                                         sentences: seq<string>, sqrt: real -> real)
    requires IsSqrt(sqrt)
    ensures sentences == [] ==> ArticleScore(lex, parse, sentences, sqrt) == 0.0
    ensures sentences != [] ==>
              -(|sentences| as real) < ArticleScore(lex, parse, sentences, sqrt) < |sentences| as real
  {
    if |sentences| > 1 {
      ArticleBounds(lex, parse, sentences[..|sentences| - 1], sqrt);
    }
  }

  // ---------------------------------------------------------------- the analyzer

  /** The analyzer: its lexicons and its parsing pipeline, set once at
    * construction and only read afterwards. */
  class SentimentAnalyzer {
    const lexicons: Lexicons
    const pipeline: string -> seq<Token>

    /** The lexicon files are read elsewhere; their stripped lines are given here. */
    constructor (lexicons: Lexicons, pipeline: string -> seq<Token>)
      ensures this.lexicons == lexicons && this.pipeline == pipeline
    {
      this.lexicons := lexicons;
      this.pipeline := pipeline;
    }

    /** `_apply_token_boosters`: scale by 1.2 or 0.8 for each booster adverb,
      * which is the score times the product of the factors. */
    method ApplyTokenBoosters(sentiment: real, children: seq<Token>) returns (boosted: real)
      ensures boosted == Boosted(lexicons, sentiment, children)
      ensures boosted == sentiment * Boost(lexicons, children)
    {
      boosted := sentiment;
      for i := 0 to |children|
        invariant boosted == Boosted(lexicons, sentiment, children[..i])
      {
        var child := children[i];
        BoostedSnoc(lexicons, sentiment, children, i);
        if child.pos == "ADV" {
          var word := Lower(child.lemmaText);
          if word in lexicons.increase {
            boosted := 1.2 * boosted;
          } else if word in lexicons.decrease {
            boosted := 0.8 * boosted;
          }
        }
      }
      assert children[..|children|] == children;
      BoostedScales(lexicons, sentiment, children);
    }

    /** `_get_token_sentiment`. */
    method TokenSentiment(token: Token) returns (r: real)
      ensures r == TokenScore(lexicons, token)
    {
      var w := Lower(token.lemmaText);
      if w in lexicons.negatives {
        r := ApplyTokenBoosters(-1.0, token.children);
      } else if w in lexicons.positives {
        r := ApplyTokenBoosters(1.0, token.children);
      } else {
        r := 0.0;
      }
    }

    /** `_get_sentence_sentiment`: the token scores of the parsed sentence,
      * summed and squashed. */
    method SentenceSentiment(sentence: string, sqrt: real -> real) returns (r: real)
      requires IsSqrt(sqrt)
      ensures r == SentenceScore(lexicons, pipeline(sentence), sqrt)
    {
      var tokens := pipeline(sentence);
      var sum := 0.0;
      for i := 0 to |tokens|
        invariant sum == TokenSum(lexicons, tokens[..i])
      {
        assert tokens[..i + 1][..i] == tokens[..i];
        var score := TokenSentiment(tokens[i]);
        sum := sum + score;
      }
      assert tokens[..|tokens|] == tokens;
      r := Squash(sum, sqrt);
    }

    /** `__call__`: the sentence scores summed over the article. */
    method Analyze(sentences: seq<string>, sqrt: real -> real) returns (sentiment: real)
      requires IsSqrt(sqrt)
      ensures sentiment == ArticleScore(lexicons, pipeline, sentences, sqrt)
    {
      sentiment := 0.0;
      for i := 0 to |sentences|
        invariant sentiment == ArticleScore(lexicons, pipeline, sentences[..i], sqrt)
      {
        assert sentences[..i + 1][..i] == sentences[..i];
        var score := SentenceSentiment(sentences[i], sqrt);
        sentiment := sentiment + score;
      }
      assert sentences[..|sentences|] == sentences;
    }
  }
}
