/** How many sentences the summary keeps, and the ranking of sentence indices by
    entropy-weighted score that splits them into qualifiers and non-qualifiers. */
module SummaryRanking {
  import opened SummarySimilarity

  // ---------------------------------------------------------------- summary size

  /** Python's `round(n / 4)`: the nearest integer, halves rounded to the even one. */
  function RoundQuarter(n: nat): (r: nat)
    ensures 4 * r <= n + 2 && n <= 4 * r + 2
    ensures (n == 4 * r + 2 || n + 2 == 4 * r) ==> r % 2 == 0
  {
    var q, rem := n / 4, n % 4;
    if rem < 2 then q
    else if rem > 2 then q + 1
    else if q % 2 == 0 then q
    else q + 1
  }

  /** Only one integer is within a half of n / 4 with ties going to the even one. */
  lemma RoundQuarterUnique(n: nat, r: nat)
    requires 4 * r <= n + 2 && n <= 4 * r + 2
    requires (n == 4 * r + 2 || n + 2 == 4 * r) ==> r % 2 == 0
    ensures r == RoundQuarter(n)
  {
  }

  /** `round(len(sentences) / 4)` clamped to the inclusive range [2, 10]. */
  function SummarySize(n: nat): (k: nat)
    ensures 2 <= k <= 10
    ensures 2 <= RoundQuarter(n) <= 10 ==> k == RoundQuarter(n)
    ensures RoundQuarter(n) < 2 ==> k == 2
    ensures RoundQuarter(n) > 10 ==> k == 10
  {
    var k := RoundQuarter(n);
    var k := if k >= 2 then k else 2;
    if k <= 10 then k else 10
  }

  /** The size is 2 up to 10 sentences, 10 from 38 sentences on, and in between
      the rounded quarter; the half-way cases round to even. */
  lemma SummarySizeRange(n: nat)
    ensures n <= 10 ==> SummarySize(n) == 2
    ensures n >= 38 ==> SummarySize(n) == 10
    ensures 11 <= n <= 37 ==> SummarySize(n) == RoundQuarter(n)
    ensures RoundQuarter(2) == 0 && RoundQuarter(6) == 2 && RoundQuarter(10) == 2
    ensures RoundQuarter(14) == 4 && RoundQuarter(18) == 4
  {
  }

  // ---------------------------------------------------------------- weighting

  /** The element-wise product of the two score vectors, the value the loop
    * below computes in place. */
  function Weighted(pagerank: seq<real>, entropies: seq<real>): (w: seq<real>)
    requires |pagerank| == |entropies|
    ensures |w| == |pagerank|
    ensures forall i :: 0 <= i < |w| ==> w[i] == pagerank[i] * entropies[i]
  {
    if pagerank == [] then []
    else [pagerank[0] * entropies[0]] + Weighted(pagerank[1..], entropies[1..])
  }

  /** The loop `scores[i] = scores[i] * entropy_i` over the PageRank scores. */
  method WeightScores(pagerank: seq<real>, entropies: seq<real>) returns (scores: seq<real>)
    requires |pagerank| == |entropies|
    ensures scores == Weighted(pagerank, entropies)
    ensures |scores| == |pagerank|
    ensures forall i :: 0 <= i < |scores| ==> scores[i] == pagerank[i] * entropies[i]
    ensures forall i :: 0 <= i < |scores| && 0.0 <= pagerank[i] && 0.0 <= entropies[i] <= 1.0
              ==> 0.0 <= scores[i] <= pagerank[i]
  {
    scores := pagerank;
    for i := 0 to |entropies|
      invariant |scores| == |pagerank|
      invariant forall j :: 0 <= j < i ==> scores[j] == pagerank[j] * entropies[j]
      invariant forall j :: i <= j < |scores| ==> scores[j] == pagerank[j]
    {
      scores := scores[i := scores[i] * entropies[i]];
    }
    forall i | 0 <= i < |scores| && 0.0 <= pagerank[i] && 0.0 <= entropies[i] <= 1.0
      ensures 0.0 <= scores[i] <= pagerank[i]
    {
      assert pagerank[i] * entropies[i] <= pagerank[i] * 1.0;
    }
  }

  // ---------------------------------------------------------------- ranking

  predicate AllBelow(s: seq<nat>, n: nat)
  {
    forall i :: 0 <= i < |s| ==> s[i] < n
  }

  /** `a` comes before `b` in `sorted(scores.items(), key=score, reverse=True)`:
      a higher score first; equal scores keep index order, as the sort is stable. */
  predicate RanksBefore(scores: seq<real>, a: nat, b: nat)
    requires a < |scores| && b < |scores|
  {
    scores[a] > scores[b] || (scores[a] == scores[b] && a < b)
  }

  /** `ranked` lists its indices in RanksBefore order. */
  predicate Ranked(scores: seq<real>, ranked: seq<nat>)
    requires AllBelow(ranked, |scores|)
  {
    forall i, j :: 0 <= i < j < |ranked| ==> RanksBefore(scores, ranked[i], ranked[j])
  }

  function Insert(scores: seq<real>, x: nat, ranked: seq<nat>): (r: seq<nat>)
    requires x < |scores| && AllBelow(ranked, |scores|)
    ensures multiset(r) == multiset(ranked) + multiset{x}
    ensures forall y :: y in r <==> y in ranked || y == x
    ensures |r| == |ranked| + 1 && AllBelow(r, |scores|)
  {
    if ranked == [] then [x]
    else if RanksBefore(scores, x, ranked[0]) then [x] + ranked
    else
      assert ranked == [ranked[0]] + ranked[1..];
      [ranked[0]] + Insert(scores, x, ranked[1..])
  }

  lemma RankedCons(scores: seq<real>, a: nat, rest: seq<nat>)
    requires a < |scores| && AllBelow(rest, |scores|) && Ranked(scores, rest)
    requires forall k :: 0 <= k < |rest| ==> RanksBefore(scores, a, rest[k])
    ensures AllBelow([a] + rest, |scores|) && Ranked(scores, [a] + rest)
  {
    var r := [a] + rest;
    forall i, j | 0 <= i < j < |r| ensures RanksBefore(scores, r[i], r[j]) {
      assert r[j] == rest[j - 1];
      if i > 0 { assert r[i] == rest[i - 1]; }
    }
  }

  lemma RankedTail(scores: seq<real>, ranked: seq<nat>)
    requires ranked != [] && AllBelow(ranked, |scores|) && Ranked(scores, ranked)
    ensures AllBelow(ranked[1..], |scores|) && Ranked(scores, ranked[1..])
  {
    var tail := ranked[1..];
    forall i, j | 0 <= i < j < |tail| ensures RanksBefore(scores, tail[i], tail[j]) {
      assert tail[i] == ranked[i + 1] && tail[j] == ranked[j + 1];
    }
  }

  /** Inserting into a ranked list keeps it ranked. */
  lemma {:induction false} InsertRanked(scores: seq<real>, x: nat, ranked: seq<nat>)
    requires x < |scores| && AllBelow(ranked, |scores|)
    requires x !in ranked && Ranked(scores, ranked)
    ensures Ranked(scores, Insert(scores, x, ranked))
  {
    if ranked == [] {
    } else if RanksBefore(scores, x, ranked[0]) {
      forall k | 0 <= k < |ranked| ensures RanksBefore(scores, x, ranked[k]) {
        if k > 0 {
          assert RanksBefore(scores, ranked[0], ranked[k]);
        }
      }
      RankedCons(scores, x, ranked);
    } else {
      var tail := ranked[1..];
      RankedTail(scores, ranked);
      assert x !in tail;
      InsertRanked(scores, x, tail);
      var rest := Insert(scores, x, tail);
      forall k | 0 <= k < |rest| ensures RanksBefore(scores, ranked[0], rest[k]) {
        assert rest[k] in rest;
        if rest[k] != x {
          var idx :| 0 <= idx < |tail| && tail[idx] == rest[k];
          assert ranked[idx + 1] == rest[k];
        }
      }
      RankedCons(scores, ranked[0], rest);
    }
  }

  /** Every index in [0, n) once; `ranked` lists them in rank order. */
  function Rank(scores: seq<real>, n: nat): (ranked: seq<nat>)
    requires n <= |scores|
    ensures |ranked| == n && AllBelow(ranked, n)
    ensures forall i :: 0 <= i < n ==> i in ranked
  {
    if n == 0 then []
    else
      var init := Rank(scores, n - 1);
      var r := Insert(scores, n - 1, init);
      assert forall i :: 0 <= i < |r| ==> r[i] in r;
      r
  }

  /** `list(ranked_scores.keys())`: all sentence indices by descending weighted
      score, equal scores in index order. */
  function RankedIndices(scores: seq<real>): seq<nat>
  {
    Rank(scores, |scores|)
  }

  /** The ranking is duplicate-free and in rank order. */
  lemma {:induction false} RankIsSorted(scores: seq<real>, n: nat)
    requires n <= |scores|
    ensures NoDuplicates(Rank(scores, n)) && Ranked(scores, Rank(scores, n))
  {
    if n > 0 {
      var init := Rank(scores, n - 1);
      RankIsSorted(scores, n - 1);
      assert n - 1 !in init;
      InsertRanked(scores, n - 1, init);
      var r := Rank(scores, n);
      forall i, j | 0 <= i < j < |r| ensures r[i] != r[j] {
        assert RanksBefore(scores, r[i], r[j]);
      }
    }
  }

  /** Two duplicate-free sequences in rank order with the same elements are equal:
      the rank order leaves no choice. */
  lemma {:induction false} RankedUnique(scores: seq<real>, a: seq<nat>, b: seq<nat>)
    requires AllBelow(a, |scores|) && AllBelow(b, |scores|)
    requires NoDuplicates(a) && NoDuplicates(b) && |a| == |b|
    requires Ranked(scores, a) && Ranked(scores, b)
    requires forall x :: x in a <==> x in b
    ensures a == b
  {
    if a != [] {
      SameHead(scores, a, b);
      var a', b' := a[1..], b[1..];
      SameTail(a, b);
      RankedTail(scores, a);
      RankedTail(scores, b);
      RankedUnique(scores, a', b');
      assert a == [a[0]] + a' && b == [b[0]] + b';
    }
  }

  /** The first of a ranked list outranks every other element of it. */
  lemma HeadOutranks(scores: seq<real>, a: seq<nat>, x: nat)
    requires a != [] && AllBelow(a, |scores|) && NoDuplicates(a) && Ranked(scores, a)
    requires x in a && x != a[0]
    ensures RanksBefore(scores, a[0], x)
  {
    var j :| 0 <= j < |a| && a[j] == x;
  }

  lemma SameHead(scores: seq<real>, a: seq<nat>, b: seq<nat>)
    requires a != [] && |a| == |b|
    requires AllBelow(a, |scores|) && AllBelow(b, |scores|)
    requires NoDuplicates(a) && NoDuplicates(b)
    requires Ranked(scores, a) && Ranked(scores, b)
    requires forall x :: x in a <==> x in b
    ensures a[0] == b[0]
  {
    assert a[0] in b && b[0] in a;
    if a[0] != b[0] {
      HeadOutranks(scores, a, b[0]);
      HeadOutranks(scores, b, a[0]);
    }
  }

  lemma SameTail(a: seq<nat>, b: seq<nat>)
    requires a != [] && |a| == |b| && a[0] == b[0]
    requires NoDuplicates(a) && NoDuplicates(b)
    requires forall x :: x in a <==> x in b
    ensures NoDuplicates(a[1..]) && NoDuplicates(b[1..])
    ensures forall x :: x in a[1..] <==> x in b[1..]
  {
    var a', b' := a[1..], b[1..];
    assert forall i, j :: 0 <= i < j < |a'| ==> a'[i] == a[i + 1] && a'[j] == a[j + 1];
    assert forall i, j :: 0 <= i < j < |b'| ==> b'[i] == b[i + 1] && b'[j] == b[j + 1];
    forall x ensures x in a' <==> x in b' {
      if x in a' {
        var i :| 0 <= i < |a'| && a'[i] == x;
        assert a[i + 1] == x && x != a[0];
        assert x in b;
        var j :| 0 <= j < |b| && b[j] == x;
        assert b'[j - 1] == x;
      }
      if x in b' {
        var i :| 0 <= i < |b'| && b'[i] == x;
        assert b[i + 1] == x && x != b[0];
        assert x in a;
        var j :| 0 <= j < |a| && a[j] == x;
        assert a'[j - 1] == x;
      }
    }
  }

  /** `sorted(scores.items(), key=..., reverse=True)` on the indices: the ranking is
      a permutation of 0..N-1, in rank order, and the only such sequence. */
  lemma RankedIndicesSpec(scores: seq<real>, other: seq<nat>)
    ensures var r := RankedIndices(scores);
            && |r| == |scores| && NoDuplicates(r) && AllBelow(r, |scores|)
            && (forall i :: 0 <= i < |scores| ==> i in r)
            && Ranked(scores, r)
    ensures |other| == |scores| && AllBelow(other, |scores|) && NoDuplicates(other)
            && (forall i :: 0 <= i < |scores| ==> i in other) && Ranked(scores, other)
            ==> other == RankedIndices(scores)
  {
    var r := RankedIndices(scores);
    RankIsSorted(scores, |scores|);
    if |other| == |scores| && AllBelow(other, |scores|) && NoDuplicates(other)
       && (forall i :: 0 <= i < |scores| ==> i in other) && Ranked(scores, other) {
      forall x ensures x in other <==> x in r {
        if x in other {
          var i :| 0 <= i < |other| && other[i] == x;
        }
        if x in r {
          var i :| 0 <= i < |r| && r[i] == x;
        }
      }
      RankedUnique(scores, other, r);
    }
  }

  // ---------------------------------------------------------------- the split

  datatype Split = Split(qualifiers: seq<nat>, nonQualifiers: seq<nat>)

  /** `ranked[:k]` and `ranked[k:]`; Python slices clamp at the end of the list. */
  function SplitRanking(ranked: seq<nat>, k: nat): (s: Split)
    ensures s.qualifiers + s.nonQualifiers == ranked
    ensures |s.qualifiers| == if k <= |ranked| then k else |ranked|
  {
    var cut := if k <= |ranked| then k else |ranked|;
    assert ranked[..cut] + ranked[cut..] == ranked;
    Split(ranked[..cut], ranked[cut..])
  }

  lemma SlicesDisjoint(r: seq<nat>, cut: nat)
    requires cut <= |r| && NoDuplicates(r)
    ensures NoDuplicates(r[..cut]) && NoDuplicates(r[cut..])
    ensures forall x :: x in r[..cut] ==> x !in r[cut..]
  {
    forall x | x in r[..cut] ensures x !in r[cut..] {
      var i :| 0 <= i < cut && r[..cut][i] == x;
      assert forall j :: 0 <= j < |r| - cut ==> r[cut..][j] == r[cut + j] != x;
    }
    assert forall i, j :: 0 <= i < j < |r[cut..]| ==> r[cut..][i] == r[cut + i] && r[cut..][j] == r[cut + j];
  }

  /** Cutting a duplicate-free ranking of 0..N-1 in two gives two disjoint,
      duplicate-free lists covering 0..N-1, the first outranking the second. */
  lemma SplitOfRanking(scores: seq<real>, r: seq<nat>, k: nat)
    requires AllBelow(r, |scores|) && NoDuplicates(r) && Ranked(scores, r)
    requires forall i :: 0 <= i < |scores| ==> i in r
    ensures var s := SplitRanking(r, k);
            && NoDuplicates(s.qualifiers) && NoDuplicates(s.nonQualifiers)
            && AllBelow(s.qualifiers, |scores|) && AllBelow(s.nonQualifiers, |scores|)
            && (forall x :: x in s.qualifiers ==> x !in s.nonQualifiers)
            && (forall i :: 0 <= i < |scores| ==> i in s.qualifiers || i in s.nonQualifiers)
            && (forall i, j :: 0 <= i < |s.qualifiers| && 0 <= j < |s.nonQualifiers|
                  ==> RanksBefore(scores, s.qualifiers[i], s.nonQualifiers[j]))
  {
    var s := SplitRanking(r, k);
    var cut := |s.qualifiers|;
    assert s.qualifiers == r[..cut] && s.nonQualifiers == r[cut..];
    SlicesDisjoint(r, cut);
    forall i | 0 <= i < |scores| ensures i in s.qualifiers || i in s.nonQualifiers {
      assert i in r[..cut] + r[cut..];
    }
    forall i, j | 0 <= i < |s.qualifiers| && 0 <= j < |s.nonQualifiers|
      ensures RanksBefore(scores, s.qualifiers[i], s.nonQualifiers[j])
    {
      assert s.qualifiers[i] == r[i] && s.nonQualifiers[j] == r[cut + j];
    }
  }

  /** Qualifiers and non-qualifiers partition the sentence indices: disjoint,
      duplicate-free, covering 0..N-1; every qualifier outranks every non-qualifier. */
  lemma SplitPartitions(scores: seq<real>, k: nat)
    ensures var s := SplitRanking(RankedIndices(scores), k);
            && NoDuplicates(s.qualifiers) && NoDuplicates(s.nonQualifiers)
            && AllBelow(s.qualifiers, |scores|) && AllBelow(s.nonQualifiers, |scores|)
            && (forall x :: x in s.qualifiers ==> x !in s.nonQualifiers)
            && (forall i :: 0 <= i < |scores| ==> i in s.qualifiers || i in s.nonQualifiers)
            && (forall i, j :: 0 <= i < |s.qualifiers| && 0 <= j < |s.nonQualifiers|
                  ==> RanksBefore(scores, s.qualifiers[i], s.nonQualifiers[j]))
  {
    RankIsSorted(scores, |scores|);
    SplitOfRanking(scores, RankedIndices(scores), k);
  }

  // ---------------------------------------------------------------- ascending sort

  /** Non-decreasing. */
  predicate Ascending(s: seq<nat>)
  {
    forall i, j :: 0 <= i < j < |s| ==> s[i] <= s[j]
  }

  predicate Increasing(s: seq<nat>)
  {
    forall i, j :: 0 <= i < j < |s| ==> s[i] < s[j]
  }

  function InsertAscending(x: nat, s: seq<nat>): (r: seq<nat>)
    ensures multiset(r) == multiset(s) + multiset{x}
  {
    if s == [] || x <= s[0] then [x] + s
    else
      assert s == [s[0]] + s[1..];
      [s[0]] + InsertAscending(x, s[1..])
  }

  lemma AscendingCons(a: nat, rest: seq<nat>)
    requires Ascending(rest)
    requires forall k :: 0 <= k < |rest| ==> a <= rest[k]
    ensures Ascending([a] + rest)
  {
    var r := [a] + rest;
    forall i, j | 0 <= i < j < |r| ensures r[i] <= r[j] {
      assert r[j] == rest[j - 1];
      if i > 0 { assert r[i] == rest[i - 1]; }
    }
  }

  /** Inserting into a sorted list keeps it sorted. */
  lemma {:induction false} InsertAscendingSorted(x: nat, s: seq<nat>)
    requires Ascending(s)
    ensures Ascending(InsertAscending(x, s))
  {
    if s == [] || x <= s[0] {
      AscendingCons(x, s);
    } else {
      var tail := s[1..];
      var rest := InsertAscending(x, tail);
      InsertAscendingSorted(x, tail);
      forall k | 0 <= k < |rest| ensures s[0] <= rest[k] {
        assert rest[k] in multiset(tail) + multiset{x};
        if rest[k] != x {
          assert rest[k] in tail;
          var idx :| 0 <= idx < |tail| && tail[idx] == rest[k];
          assert s[idx + 1] == rest[k];
        }
      }
      AscendingCons(s[0], rest);
    }
  }

  /** Python's `sorted` on a list of integers. */
  function SortAscending(s: seq<nat>): (r: seq<nat>)
    ensures multiset(r) == multiset(s)
    ensures |r| == |s|
    ensures Ascending(r)
  {
    if s == [] then []
    else
      assert s == [s[0]] + s[1..];
      var rest := SortAscending(s[1..]);
      InsertAscendingSorted(s[0], rest);
      InsertAscending(s[0], rest)
  }

  /** Sorting a sorted list changes nothing. */
  lemma {:induction false} SortAscendingSorted(s: seq<nat>)
    requires Ascending(s)
    ensures SortAscending(s) == s
  {
    if s != [] {
      SortAscendingSorted(s[1..]);
      assert s == [s[0]] + s[1..];
    }
  }

  lemma {:induction false} DistinctCount(s: seq<nat>, x: nat)
    requires NoDuplicates(s)
    ensures multiset(s)[x] <= 1
  {
    if s != [] {
      assert s == [s[0]] + s[1..];
      DistinctCount(s[1..], x);
      assert s[0] !in s[1..];
    }
  }

  lemma RepeatCount(s: seq<nat>, i: nat, j: nat)
    requires i < j < |s|
    ensures s[i] == s[j] ==> multiset(s)[s[i]] >= 2
  {
    assert s == s[..j] + [s[j]] + s[j + 1..];
    assert s[i] in s[..j];
  }

  /** Sorting a duplicate-free list gives a strictly increasing list of the same elements. */
  lemma SortDistinct(s: seq<nat>)
    requires NoDuplicates(s)
    ensures var r := SortAscending(s);
            && Increasing(r)
            && (forall x :: x in r <==> x in s)
  {
    var r := SortAscending(s);
    forall i, j | 0 <= i < j < |r| ensures r[i] < r[j] {
      RepeatCount(r, i, j);
      DistinctCount(s, r[i]);
    }
    forall x ensures x in r <==> x in s {
      assert x in r <==> x in multiset(r);
    }
  }
}
