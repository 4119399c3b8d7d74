// Removal of near-duplicate sentences from the summary candidates, as
// `_clean_qualifiers` does it (nlp_helpers/summarizer.py:162-186).
//
// The detection step is modelled literally, numpy semantics included:
//  - `matrix.take(indices)` without an `axis` indexes the matrix FLATTENED, so
//    `take([qualifiers, reversed(qualifiers)])` reads `matrix[0, i]` for every
//    qualifier `i`: both rows compare the qualifiers with sentence 0 only, and
//    the second row is the first one reversed;
//  - `np.where` on that 2 x k array returns the pair (row indices, column
//    indices), and each of the two becomes one sorted tuple;
//  - the loop unpacks every tuple into two names, which raises ValueError
//    unless the tuple has exactly two entries.
// The lemmas below state what this detection finds.
module SummaryCleaning {
  import opened Wrappers
  import opened SummarySimilarity
  import opened SummaryRanking

  // ---------------------------------------------------------------- numpy reads

  lemma FlatIndexInRange(flat: nat, rows: nat, cols: nat)
    requires flat < rows * cols
    ensures 0 < cols && flat / cols < rows
  {
    var d := flat / cols;
    assert cols * d <= flat;
    assert (rows - d) * cols == rows * cols - cols * d;
    assert (rows - d) * cols > 0;
  }

  /** `ndarray.take(flat)` without an axis: the matrix read in row-major order. */
  function FlatTake(m: array2<real>, flat: nat): real
    reads m
    requires flat < m.Length0 * m.Length1
  {
    FlatIndexInRange(flat, m.Length0, m.Length1);
    m[flat / m.Length1, flat % m.Length1]
  }

  /** A flat index below the row length lands in row 0. */
  lemma FlatTakeFirstRow(m: array2<real>, col: nat)
    requires 0 < m.Length0 && col < m.Length1
    ensures col < m.Length0 * m.Length1
    ensures FlatTake(m, col) == m[0, col]
  {
    assert m.Length1 <= m.Length0 * m.Length1;
    assert col / m.Length1 == 0;
    assert col % m.Length1 == col;
  }

  function TakeFirstRow(m: array2<real>, col: nat): (v: real)
    reads m
    requires 0 < m.Length0 && col < m.Length1
    ensures v == m[0, col]
  {
    FlatTakeFirstRow(m, col);
    FlatTake(m, col)
  }

  /** `list(reversed(s))`. */
  function Reversed<T>(s: seq<T>): (r: seq<T>)
    ensures |r| == |s|
    ensures forall i :: 0 <= i < |s| ==> r[i] == s[|s| - 1 - i]
  {
    if s == [] then [] else [s[|s| - 1]] + Reversed(s[..|s| - 1])
  }

  /** A square matrix, as the similarity matrix is, and qualifiers that index it. */
  predicate Readable(m: array2<real>, qualifiers: seq<nat>)
  {
    m.Length0 == m.Length1 && forall p :: 0 <= p < |qualifiers| ==> qualifiers[p] < m.Length0
  }

  /** `matrix.take([qualifiers, list(reversed(qualifiers))])`: a 2 x k array. */
  function TakenRows(m: array2<real>, qualifiers: seq<nat>): (rows: seq<seq<real>>)
    reads m
    requires Readable(m, qualifiers)
    ensures |rows| == 2 && |rows[0]| == |rows[1]| == |qualifiers|
    ensures forall p :: 0 <= p < |qualifiers| ==> rows[0][p] == m[0, qualifiers[p]]
    ensures forall p :: 0 <= p < |qualifiers| ==> rows[1][p] == rows[0][|qualifiers| - 1 - p]
  {
    var reversed := Reversed(qualifiers);
    [TakeRow(m, qualifiers), TakeRow(m, reversed)]
  }

  /** `matrix.take(indices)` for one list of indices below the row length. */
  function TakeRow(m: array2<real>, indices: seq<nat>): (row: seq<real>)
    reads m
    requires Readable(m, indices)
    ensures |row| == |indices|
    ensures forall p :: 0 <= p < |indices| ==> indices[p] < m.Length0 && row[p] == m[0, indices[p]]
  {
    if indices == [] then []
    else TakeRow(m, indices[..|indices| - 1]) + [TakeFirstRow(m, indices[|indices| - 1])]
  }

  /** The positions of `row` whose value exceeds the duplicate threshold, ascending. */
  function Positions(row: seq<real>): seq<nat>
  {
    if row == [] then []
    else Positions(row[..|row| - 1]) + (if row[|row| - 1] > DuplicateThreshold then [|row| - 1] else [])
  }

  /** `Positions` lists exactly the positions above the threshold, in increasing order. */
  lemma {:induction false} PositionsSpec(row: seq<real>)
    ensures var ps := Positions(row);
            && (forall i :: 0 <= i < |ps| ==> ps[i] < |row| && row[ps[i]] > DuplicateThreshold)
            && (forall j :: 0 <= j < |row| && row[j] > DuplicateThreshold ==> j in ps)
            && (forall i, j :: 0 <= i < j < |ps| ==> ps[i] < ps[j])
  {
    if row != [] {
      var n := |row| - 1;
      var init := row[..n];
      PositionsSpec(init);
      var front := Positions(init);
      var ps := Positions(row);
      assert ps == front + (if row[n] > DuplicateThreshold then [n] else []);
      forall i | 0 <= i < |ps| ensures ps[i] < |row| && row[ps[i]] > DuplicateThreshold {
        if i < |front| {
          assert ps[i] == front[i] && init[front[i]] == row[front[i]];
        }
      }
      forall j | 0 <= j < |row| && row[j] > DuplicateThreshold ensures j in ps {
        if j < n {
          assert init[j] == row[j];
          assert j in front;
        } else {
          assert ps[|ps| - 1] == n;
        }
      }
      forall i, j | 0 <= i < j < |ps| ensures ps[i] < ps[j] {
        if j < |front| {
          assert ps[i] == front[i] && ps[j] == front[j];
        } else {
          assert ps[j] == n && ps[i] == front[i];
        }
      }
    }
  }

  lemma PositionsBelow(row: seq<real>)
    ensures AllBelow(Positions(row), |row|)
  {
    PositionsSpec(row);
  }

  /** No entry above the threshold: no position. */
  lemma {:induction false} NoPositions(row: seq<real>)
    requires forall j :: 0 <= j < |row| ==> row[j] <= DuplicateThreshold
    ensures Positions(row) == []
  {
    if row != [] {
      NoPositions(row[..|row| - 1]);
    }
  }

  /** A single entry above the threshold: a single position. */
  lemma {:induction false} OnlyPosition(row: seq<real>, p: nat)
    requires p < |row| && row[p] > DuplicateThreshold
    requires forall j :: 0 <= j < |row| && j != p ==> row[j] <= DuplicateThreshold
    ensures Positions(row) == [p]
  {
    var init := row[..|row| - 1];
    if p == |row| - 1 {
      NoPositions(init);
    } else {
      OnlyPosition(init, p);
    }
  }

  function Indicator(x: real): nat
  {
    if x > DuplicateThreshold then 1 else 0
  }

  lemma {:induction false} PositionsFront(a: real, t: seq<real>)
    ensures |Positions([a] + t)| == Indicator(a) + |Positions(t)|
  {
    if t != [] {
      var s := [a] + t;
      assert s[..|s| - 1] == [a] + t[..|t| - 1];
      assert s[|s| - 1] == t[|t| - 1];
      PositionsFront(a, t[..|t| - 1]);
    }
  }

  /** Reversing a row keeps the number of positions above the threshold. */
  lemma {:induction false} PositionsReversed(row: seq<real>)
    ensures |Positions(Reversed(row))| == |Positions(row)|
  {
    if row != [] {
      var init := row[..|row| - 1];
      PositionsReversed(init);
      PositionsFront(row[|row| - 1], Reversed(init));
      assert Reversed(row) == [row[|row| - 1]] + Reversed(init);
    }
  }

  function Repeat(x: nat, n: nat): (r: seq<nat>)
    ensures |r| == n && forall i :: 0 <= i < n ==> r[i] == x
  {
    if n == 0 then [] else [x] + Repeat(x, n - 1)
  }

  /** `np.where(rows > 0.75)` on a two-row array: (row indices, column indices). */
  function WhereAbove(rows: seq<seq<real>>): (w: (seq<nat>, seq<nat>))
    requires |rows| == 2
    ensures |w.0| == |w.1| == |Positions(rows[0])| + |Positions(rows[1])|
  {
    var p0, p1 := Positions(rows[0]), Positions(rows[1]);
    (Repeat(0, |p0|) + Repeat(1, |p1|), p0 + p1)
  }

  /** Row indices are 0 or 1; column indices are positions in the rows. */
  lemma WhereBounds(rows: seq<seq<real>>)
    requires |rows| == 2 && |rows[0]| == |rows[1]|
    ensures AllBelow(WhereAbove(rows).0, 2) && AllBelow(WhereAbove(rows).1, |rows[0]|)
  {
    var p0, p1 := Positions(rows[0]), Positions(rows[1]);
    PositionsBelow(rows[0]);
    PositionsBelow(rows[1]);
    assert WhereAbove(rows).1 == p0 + p1;
  }

  /** `set(map(lambda indexes: tuple(sorted(indexes)), filter(lambda indexes: len(indexes) > 0, (a, b))))`. */
  function SortedTuples(a: seq<nat>, b: seq<nat>): set<seq<nat>>
  {
    (if a != [] then {SortAscending(a)} else {}) + (if b != [] then {SortAscending(b)} else {})
  }

  lemma SortedBelow(s: seq<nat>, n: nat)
    requires AllBelow(s, n)
    ensures AllBelow(SortAscending(s), n)
  {
    var r := SortAscending(s);
    forall i | 0 <= i < |r| ensures r[i] < n {
      assert r[i] in multiset(s);
    }
  }

  /** Two index arrays of one length give no tuple when empty, and otherwise
    * sorted tuples of that length whose entries stay below the same bound. */
  lemma SortedTuplesShape(a: seq<nat>, b: seq<nat>, n: nat)
    requires |a| == |b| && AllBelow(a, n) && AllBelow(b, n)
    ensures var tuples := SortedTuples(a, b);
            && (tuples == {} <==> a == [])
            && (forall t :: t in tuples ==> |t| == |a| && AllBelow(t, n) && Ascending(t))
  {
    SortedBelow(a, n);
    SortedBelow(b, n);
    if a != [] {
      assert SortAscending(a) in SortedTuples(a, b);
    }
  }

  /** `similar_qualifiers` (summarizer.py:174-177): the non-empty index arrays of
    * `np.where`, each turned into a sorted tuple, collected in a set. */
  function SimilarQualifiers(m: array2<real>, qualifiers: seq<nat>): set<seq<nat>>
    reads m
    requires Readable(m, qualifiers)
  {
    var indices := WhereAbove(TakenRows(m, qualifiers));
    SortedTuples(indices.0, indices.1)
  }

  /** `set(map(lambda indexes: tuple(sorted(indexes)), list(tuples)))` (summarizer.py:179). */
  function Resorted(tuples: set<seq<nat>>): set<seq<nat>>
  {
    set t | t in tuples :: SortAscending(t)
  }

  /** Sorted tuples, as the detection yields, are not changed by sorting them again. */
  lemma ResortedSorted(tuples: set<seq<nat>>)
    requires forall t :: t in tuples ==> Ascending(t)
    ensures Resorted(tuples) == tuples
  {
    forall t | t in tuples ensures SortAscending(t) == t {
      SortAscendingSorted(t);
    }
  }

  /** How many qualifiers are more than 75% similar to sentence 0: what the
    * detection actually measures. */
  function SimilarToFirst(m: array2<real>, qualifiers: seq<nat>): nat
    reads m
    requires Readable(m, qualifiers)
  {
    |Positions(TakenRows(m, qualifiers)[0])|
  }

  function Max(a: nat, b: nat): nat
  {
    if a < b then b else a
  }

  /** Shape of the detection: nothing is found exactly when no qualifier is
    * similar to sentence 0; otherwise every tuple is sorted, has two entries
    * per such qualifier, and holds row numbers (0 or 1) or qualifier positions. */
  lemma DetectionShape(m: array2<real>, qualifiers: seq<nat>)
    requires Readable(m, qualifiers)
    ensures var c := SimilarToFirst(m, qualifiers);
            var found := SimilarQualifiers(m, qualifiers);
            && (found == {} <==> c == 0)
            && (forall t :: t in found ==>
                  |t| == 2 * c && AllBelow(t, Max(2, |qualifiers|)) && Ascending(t))
  {
    var rows := TakenRows(m, qualifiers);
    assert rows[1] == Reversed(rows[0]);
    PositionsReversed(rows[0]);
    WhereBounds(rows);
    var w := WhereAbove(rows);
    var n := Max(2, |qualifiers|);
    assert AllBelow(w.0, n) && AllBelow(w.1, n);
    SortedTuplesShape(w.0, w.1, n);
  }

  /** With exactly one qualifier `p` similar to sentence 0, the detection reports
    * the pair (0, 1) and the pair {p, k - 1 - p}, neither of which need be a
    * pair of similar sentences. */
  lemma DetectionOfOne(m: array2<real>, qualifiers: seq<nat>, p: nat)
    requires Readable(m, qualifiers)
    requires p < |qualifiers| && 0 < m.Length0 && m[0, qualifiers[p]] > DuplicateThreshold
    requires forall j :: 0 <= j < |qualifiers| && j != p ==> m[0, qualifiers[j]] <= DuplicateThreshold
    ensures SimilarQualifiers(m, qualifiers) == {[0, 1], OrderedPair(p, |qualifiers| - 1 - p)}
  {
    var rows := TakenRows(m, qualifiers);
    DetectOne(rows, p);
  }

  lemma DetectOne(rows: seq<seq<real>>, p: nat)
    requires |rows| == 2 && |rows[0]| == |rows[1]| && p < |rows[0]|
    requires forall j :: 0 <= j < |rows[1]| ==> rows[1][j] == rows[0][|rows[0]| - 1 - j]
    requires rows[0][p] > DuplicateThreshold
    requires forall j :: 0 <= j < |rows[0]| && j != p ==> rows[0][j] <= DuplicateThreshold
    ensures var w := WhereAbove(rows);
            SortedTuples(w.0, w.1) == {[0, 1], OrderedPair(p, |rows[0]| - 1 - p)}
  {
    var mirror := |rows[0]| - 1 - p;
    RowsOfOne(rows, p);
    WhereOfOne(rows, p, mirror);
    OneDetection(p, mirror);
  }

  /** One entry above the threshold in the first row, and its mirror image in the second. */
  lemma RowsOfOne(rows: seq<seq<real>>, p: nat)
    requires |rows| == 2 && |rows[0]| == |rows[1]| && p < |rows[0]|
    requires forall j :: 0 <= j < |rows[1]| ==> rows[1][j] == rows[0][|rows[0]| - 1 - j]
    requires rows[0][p] > DuplicateThreshold
    requires forall j :: 0 <= j < |rows[0]| && j != p ==> rows[0][j] <= DuplicateThreshold
    ensures Positions(rows[0]) == [p] && Positions(rows[1]) == [|rows[0]| - 1 - p]
  {
    var k, mirror := |rows[0]|, |rows[0]| - 1 - p;
    OnlyPosition(rows[0], p);
    forall j | 0 <= j < k && j != mirror ensures rows[1][j] <= DuplicateThreshold {
      assert rows[1][j] == rows[0][k - 1 - j];
    }
    OnlyPosition(rows[1], mirror);
  }

  lemma WhereOfOne(rows: seq<seq<real>>, p: nat, mirror: nat)
    requires |rows| == 2
    requires Positions(rows[0]) == [p] && Positions(rows[1]) == [mirror]
    ensures WhereAbove(rows) == ([0, 1], [p, mirror])
  {
    var p0, p1 := Positions(rows[0]), Positions(rows[1]);
    assert WhereAbove(rows) == (Repeat(0, |p0|) + Repeat(1, |p1|), p0 + p1);
    assert Repeat(0, 1) == [0];
    assert Repeat(1, 1) == [1];
    assert [0] + [1] == [0, 1];
    assert [p] + [mirror] == [p, mirror];
  }

  lemma OneDetection(p: nat, mirror: nat)
    ensures SortedTuples([0, 1], [p, mirror]) == {[0, 1], OrderedPair(p, mirror)}
  {
    var a: seq<nat>, b: seq<nat> := [0, 1], [p, mirror];
    SortAscendingSorted(a);
    assert SortedTuples(a, b) == {SortAscending(a), SortAscending(b)};
    SortPair(p, mirror);
  }

  function OrderedPair(x: nat, y: nat): seq<nat>
  {
    if x <= y then [x, y] else [y, x]
  }

  lemma SortPair(x: nat, y: nat)
    ensures SortAscending([x, y]) == OrderedPair(x, y)
  {
    assert [x, y][1..] == [y];
    assert SortAscending([y]) == [y];
    assert SortAscending([x, y]) == InsertAscending(x, [y]);
    if x > y {
      assert [y][1..] == [];
      assert InsertAscending(x, [y]) == [y] + InsertAscending(x, []);
    }
  }

  // ---------------------------------------------------------------- list surgery

  /** `del qualifiers[i]` followed by `qualifiers.append(non_qualifiers.pop(0))`
    * removes exactly entry `i` of the concatenation of the two lists. */
  lemma ReplaceQualifier(q: seq<nat>, nq: seq<nat>, i: nat)
    requires i < |q| && nq != []
    requires NoDuplicates(q + nq)
    ensures var q' := q[..i] + q[i + 1..] + [nq[0]];
            && NoDuplicates(q' + nq[1..])
            && multiset(q' + nq[1..]) + multiset{q[i]} == multiset(q + nq)
  {
    var s := q + nq;
    var q' := q[..i] + q[i + 1..] + [nq[0]];
    assert q' + nq[1..] == s[..i] + s[i + 1..];
    assert s == s[..i] + [s[i]] + s[i + 1..];
    var d := s[..i] + s[i + 1..];
    forall a, b | 0 <= a < b < |d| ensures d[a] != d[b] {
      var fa := if a < i then a else a + 1;
      var fb := if b < i then b else b + 1;
      assert d[a] == s[fa] && d[b] == s[fb];
    }
  }

  /** What the replacements keep: `q` and `nq` come from `q0` and `nq0` by
    * deleting qualifiers and moving non-qualifiers from the front of `nq0` to
    * the back of the qualifiers: as many qualifiers as before, no sentence
    * twice, no sentence that was not there, and a suffix of `nq0` left over. */
  predicate Refilled(q0: seq<nat>, nq0: seq<nat>, q: seq<nat>, nq: seq<nat>, n: nat)
  {
    && |q| == |q0|
    && NoDuplicates(q + nq)
    && multiset(q + nq) <= multiset(q0 + nq0)
    && |nq| <= |nq0| && nq == nq0[|nq0| - |nq|..]
    && AllBelow(q, n) && AllBelow(nq, n)
  }

  lemma RefilledStart(q0: seq<nat>, nq0: seq<nat>, n: nat)
    requires NoDuplicates(q0 + nq0) && AllBelow(q0, n) && AllBelow(nq0, n)
    ensures Refilled(q0, nq0, q0, nq0, n)
  {
    assert nq0 == nq0[0..];
  }

  /** One replacement (summarizer.py:181-185) keeps `Refilled`. */
  lemma RefilledStep(q0: seq<nat>, nq0: seq<nat>, q: seq<nat>, nq: seq<nat>, n: nat, drop: nat)
    requires Refilled(q0, nq0, q, nq, n)
    requires drop < |q| && nq != []
    ensures Refilled(q0, nq0, q[..drop] + q[drop + 1..] + [nq[0]], nq[1..], n)
  {
    ReplaceQualifier(q, nq, drop);
    var q' := q[..drop] + q[drop + 1..] + [nq[0]];
    assert forall i :: 0 <= i < |q'| ==> q'[i] in q || q'[i] == nq[0];
    assert nq[1..] == nq0[|nq0| - |nq| + 1..];
  }

  lemma RefilledTrans(q0: seq<nat>, nq0: seq<nat>, q1: seq<nat>, nq1: seq<nat>,
                      q2: seq<nat>, nq2: seq<nat>, n: nat)
    requires Refilled(q0, nq0, q1, nq1, n) && Refilled(q1, nq1, q2, nq2, n)
    ensures Refilled(q0, nq0, q2, nq2, n)
  {
    assert nq2 == nq0[|nq0| - |nq2|..];
  }

  // ---------------------------------------------------------------- replacement rule

  /** One pass of the loop body (summarizer.py:180-185) on tuple `t`: unpack it
    * into two positions (ValueError unless it has two entries); while
    * non-qualifiers are left, delete the position whose sentence has the lower
    * entropy (the second on a tie), reading both positions first (IndexError
    * when either is past the end), and append the first non-qualifier. */
  function ReplaceStep(s: Split, t: seq<nat>, entropies: seq<real>): (r: Result<Split>)
    requires AllBelow(s.qualifiers, |entropies|) && AllBelow(s.nonQualifiers, |entropies|)
    ensures r.Success? ==>
              AllBelow(r.value.qualifiers, |entropies|) && AllBelow(r.value.nonQualifiers, |entropies|)
  {
    if |t| != 2 then Failure(ValueError)
    else if s.nonQualifiers == [] then Success(s)
    else if t[0] >= |s.qualifiers| || t[1] >= |s.qualifiers| then Failure(IndexError)
    else
      var q := s.qualifiers;
      Success(Replaced(s, if entropies[q[t[0]]] >= entropies[q[t[1]]] then t[1] else t[0]))
  }

  /** `del qualifiers[drop]` then `qualifiers.append(non_qualifiers.pop(0))`. */
  function Replaced(s: Split, drop: nat): Split
    requires drop < |s.qualifiers| && s.nonQualifiers != []
  {
    Split(s.qualifiers[..drop] + s.qualifiers[drop + 1..] + [s.nonQualifiers[0]], s.nonQualifiers[1..])
  }

  /** The loop run over the tuples in the order `order`: the first error stops it. */
  function ReplaceAll(start: Split, order: seq<seq<nat>>, entropies: seq<real>): (r: Result<Split>)
    requires AllBelow(start.qualifiers, |entropies|) && AllBelow(start.nonQualifiers, |entropies|)
    ensures r.Success? ==>
              AllBelow(r.value.qualifiers, |entropies|) && AllBelow(r.value.nonQualifiers, |entropies|)
  {
    if order == [] then Success(start)
    else
      var prev := ReplaceAll(start, order[..|order| - 1], entropies);
      if prev.Failure? then prev else ReplaceStep(prev.value, order[|order| - 1], entropies)
  }

  /** One more tuple: one more step, unless the loop has already raised. */
  lemma ReplaceAllSnoc(start: Split, order: seq<seq<nat>>, t: seq<nat>, entropies: seq<real>)
    requires AllBelow(start.qualifiers, |entropies|) && AllBelow(start.nonQualifiers, |entropies|)
    ensures var prev := ReplaceAll(start, order, entropies);
            ReplaceAll(start, order + [t], entropies)
              == if prev.Failure? then prev else ReplaceStep(prev.value, t, entropies)
  {
    assert (order + [t])[..|order|] == order;
  }

  lemma ReplaceAllFailed(start: Split, order: seq<seq<nat>>, t: seq<nat>, entropies: seq<real>)
    requires AllBelow(start.qualifiers, |entropies|) && AllBelow(start.nonQualifiers, |entropies|)
    requires ReplaceAll(start, order, entropies).Failure?
    ensures ReplaceAll(start, order + [t], entropies) == ReplaceAll(start, order, entropies)
  {
    ReplaceAllSnoc(start, order, t, entropies);
  }

  /** Once the loop has raised, the remaining tuples change nothing. */
  lemma {:induction false} ReplaceAllStops(start: Split, order: seq<seq<nat>>, rest: seq<seq<nat>>,
                                          entropies: seq<real>)
    requires AllBelow(start.qualifiers, |entropies|) && AllBelow(start.nonQualifiers, |entropies|)
    requires ReplaceAll(start, order, entropies).Failure?
    ensures ReplaceAll(start, order + rest, entropies) == ReplaceAll(start, order, entropies)
  {
    if rest != [] {
      var init, last := rest[..|rest| - 1], rest[|rest| - 1];
      ReplaceAllStops(start, order, init, entropies);
      ReplaceAllFailed(start, order + init, last, entropies);
      assert order + rest == (order + init) + [last];
    } else {
      assert order + rest == order;
    }
  }

  /** A step that does not raise keeps `Refilled`, and uses up a non-qualifier
    * when one is left. */
  lemma StepRefilled(q0: seq<nat>, nq0: seq<nat>, s: Split, t: seq<nat>, entropies: seq<real>)
    requires AllBelow(s.qualifiers, |entropies|) && AllBelow(s.nonQualifiers, |entropies|)
    requires Refilled(q0, nq0, s.qualifiers, s.nonQualifiers, |entropies|)
    ensures var r := ReplaceStep(s, t, entropies);
            r.Success? ==>
              && Refilled(q0, nq0, r.value.qualifiers, r.value.nonQualifiers, |entropies|)
              && |r.value.nonQualifiers| <= |s.nonQualifiers|
              && (s.nonQualifiers != [] ==> |r.value.nonQualifiers| < |s.nonQualifiers|)
  {
    var q := s.qualifiers;
    var r := ReplaceStep(s, t, entropies);
    if r.Success? && s.nonQualifiers != [] {
      assert |t| == 2 && t[0] < |q| && t[1] < |q|;
      var drop := if entropies[q[t[0]]] >= entropies[q[t[1]]] then t[1] else t[0];
      assert r.value == Replaced(s, drop);
      RefilledStep(q0, nq0, q, s.nonQualifiers, |entropies|, drop);
    }
  }

  /** Every run of the replacement rule that does not raise keeps `Refilled`,
    * and uses up a non-qualifier when one was left. */
  lemma {:induction false} ReplaceAllRefilled(start: Split, order: seq<seq<nat>>, entropies: seq<real>)
    requires AllBelow(start.qualifiers, |entropies|) && AllBelow(start.nonQualifiers, |entropies|)
    requires NoDuplicates(start.qualifiers + start.nonQualifiers)
    ensures var r := ReplaceAll(start, order, entropies);
            r.Success? ==>
              && Refilled(start.qualifiers, start.nonQualifiers, r.value.qualifiers, r.value.nonQualifiers, |entropies|)
              && (order != [] && start.nonQualifiers != [] ==> |r.value.nonQualifiers| < |start.nonQualifiers|)
  {
    RefilledStart(start.qualifiers, start.nonQualifiers, |entropies|);
    if order != [] {
      var init := order[..|order| - 1];
      ReplaceAllRefilled(start, init, entropies);
      var prev := ReplaceAll(start, init, entropies);
      if prev.Success? {
        StepRefilled(start.qualifiers, start.nonQualifiers, prev.value, order[|order| - 1], entropies);
      }
    }
  }

  /** The members of a finite set listed once each, in some order. */
  ghost function Enumerate(tuples: set<seq<nat>>): (order: seq<seq<nat>>)
    ensures (forall t :: t in order <==> t in tuples) && NoDuplicates(order)
    decreases |tuples|
  {
    if tuples == {} then []
    else
      var t :| t in tuples;
      var rest := Enumerate(tuples - {t});
      assert forall i :: 0 <= i < |rest| ==> rest[i] in tuples - {t};
      [t] + rest
  }

  /** What the replacement rule can raise: ValueError for a tuple that is not a
    * pair (the very first one already, when no tuple is a pair), IndexError only
    * for fewer than two qualifiers when the tuples hold row numbers or
    * qualifier positions; and it keeps the number of qualifiers. */
  lemma {:induction false} ReplaceAllErrors(start: Split, order: seq<seq<nat>>, entropies: seq<real>)
    requires AllBelow(start.qualifiers, |entropies|) && AllBelow(start.nonQualifiers, |entropies|)
    ensures var r := ReplaceAll(start, order, entropies);
            && (r.Success? ==> |r.value.qualifiers| == |start.qualifiers|)
            && (r.Failure? && (forall i :: 0 <= i < |order| ==> AllBelow(order[i], Max(2, |start.qualifiers|))) ==>
                  r.error == ValueError || (r.error == IndexError && |start.qualifiers| < 2))
            && (order != [] && (forall i :: 0 <= i < |order| ==> |order[i]| != 2) ==> r == Failure(ValueError))
  {
    if order != [] {
      var init := order[..|order| - 1];
      ReplaceAllErrors(start, init, entropies);
      assert forall i :: 0 <= i < |init| ==> init[i] == order[i];
    }
  }

  /** What a complete pass over the tuples `pairs` yields, whichever order it took. */
  lemma ReplaceAllOutcome(qualifiers: seq<nat>, nonQualifiers: seq<nat>, pairs: set<seq<nat>>,
                          order: seq<seq<nat>>, entropies: seq<real>)
    requires pairs != {} && nonQualifiers != []
    requires forall t :: t in pairs ==> AllBelow(t, Max(2, |qualifiers|))
    requires AllBelow(qualifiers, |entropies|) && AllBelow(nonQualifiers, |entropies|)
    requires NoDuplicates(qualifiers + nonQualifiers)
    requires forall t :: t in order <==> t in pairs
    ensures var res := ReplaceAll(Split(qualifiers, nonQualifiers), order, entropies);
            && (res.Success? ==>
                  && Refilled(qualifiers, nonQualifiers, res.value.qualifiers, res.value.nonQualifiers, |entropies|)
                  && |res.value.nonQualifiers| < |nonQualifiers|)
            && ((forall t :: t in pairs ==> |t| != 2) ==> res == Failure(ValueError))
            && (res.Failure? ==> res.error == ValueError || (res.error == IndexError && |qualifiers| < 2))
  {
    var start := Split(qualifiers, nonQualifiers);
    assert order != [] by {
      var t :| t in pairs;
      assert t in order;
    }
    assert forall i :: 0 <= i < |order| ==> order[i] in pairs;
    ReplaceAllRefilled(start, order, entropies);
    ReplaceAllErrors(start, order, entropies);
  }

  /** The loop of `_clean_qualifiers` (summarizer.py:179-185) applies the
    * replacement rule to every detected tuple. The set is iterated in an
    * arbitrary order, as a Python set is: `order` is the order this run took. */
  method ReplaceSimilar(qualifiers: seq<nat>, nonQualifiers: seq<nat>, pairs: set<seq<nat>>,
                        entropies: seq<real>)
    returns (res: Result<Split>, ghost order: seq<seq<nat>>)
    requires pairs != {} && nonQualifiers != []
    requires forall t :: t in pairs ==> AllBelow(t, Max(2, |qualifiers|))
    requires AllBelow(qualifiers, |entropies|) && AllBelow(nonQualifiers, |entropies|)
    requires NoDuplicates(qualifiers + nonQualifiers)
    // every tuple once, in some order, through the replacement rule
    ensures (forall t :: t in order <==> t in pairs) && NoDuplicates(order)
    ensures res == ReplaceAll(Split(qualifiers, nonQualifiers), order, entropies)
    ensures res.Success? ==>
              && Refilled(qualifiers, nonQualifiers, res.value.qualifiers, res.value.nonQualifiers, |entropies|)
              && |res.value.nonQualifiers| < |nonQualifiers|
    ensures (forall t :: t in pairs ==> |t| != 2) ==> res == Failure(ValueError)
    ensures res.Failure? ==>
              res.error == ValueError || (res.error == IndexError && |qualifiers| < 2)
  {
    var start := Split(qualifiers, nonQualifiers);
    var q, nq := qualifiers, nonQualifiers;
    var pending := pairs;
    order := [];
    res := Success(start);
    while pending != {}
      invariant res.Success?
      invariant forall t :: t in pairs <==> t in order || t in pending
      invariant NoDuplicates(order) && forall i :: 0 <= i < |order| ==> order[i] !in pending
      invariant ReplaceAll(start, order, entropies) == Success(Split(q, nq))
      decreases |pending|
    {
      var t :| t in pending;
      Taken(pairs, order, pending, t);
      ReplaceAllSnoc(start, order, t, entropies);
      pending, order := pending - {t}, order + [t];
      if |t| != 2 {
        res := Failure(ValueError);
        order := Finish(start, order, pending, entropies, res);
        break;
      }
      var idx1, idx2 := t[0], t[1];
      if nq != [] {
        if idx1 >= |q| || idx2 >= |q| {
          res := Failure(IndexError);
          order := Finish(start, order, pending, entropies, res);
          break;
        }
        var drop := if entropies[q[idx1]] >= entropies[q[idx2]] then idx2 else idx1;
        assert ReplaceStep(Split(q, nq), t, entropies) == Success(Replaced(Split(q, nq), drop));
        q, nq := q[..drop] + q[drop + 1..] + [nq[0]], nq[1..];
      }
    }
    if res.Success? {
      res := Success(Split(q, nq));
    }
    ReplaceAllOutcome(qualifiers, nonQualifiers, pairs, order, entropies);
  }

  /** Taking tuple `t` from the pending ones to the end of the order keeps every
    * tuple in exactly one of the two, and the order free of repeats. */
  lemma Taken(pairs: set<seq<nat>>, order: seq<seq<nat>>, pending: set<seq<nat>>, t: seq<nat>)
    requires forall x :: x in pairs <==> x in order || x in pending
    requires NoDuplicates(order) && forall i :: 0 <= i < |order| ==> order[i] !in pending
    requires t in pending
    ensures var (order', pending') := (order + [t], pending - {t});
            && (forall x :: x in pairs <==> x in order' || x in pending')
            && NoDuplicates(order') && forall i :: 0 <= i < |order'| ==> order'[i] !in pending'
  {
    var order' := order + [t];
    assert forall i :: 0 <= i < |order| ==> order'[i] == order[i];
  }

  /** An early return: the tuples not reached complete the order, and change
    * nothing. */
  lemma Finish(start: Split, order: seq<seq<nat>>, pending: set<seq<nat>>, entropies: seq<real>,
               res: Result<Split>)
    returns (full: seq<seq<nat>>)
    requires AllBelow(start.qualifiers, |entropies|) && AllBelow(start.nonQualifiers, |entropies|)
    requires res.Failure? && ReplaceAll(start, order, entropies) == res
    requires NoDuplicates(order) && forall i :: 0 <= i < |order| ==> order[i] !in pending
    ensures (forall t :: t in full <==> t in order || t in pending) && NoDuplicates(full)
    ensures ReplaceAll(start, full, entropies) == res
  {
    var rest := Enumerate(pending);
    full := order + rest;
    ReplaceAllStops(start, order, rest, entropies);
    forall i, j | 0 <= i < j < |full| ensures full[i] != full[j] {
      if j >= |order| && i < |order| {
        assert full[j] == rest[j - |order|] && rest[j - |order|] in pending;
      } else if i >= |order| {
        assert full[i] == rest[i - |order|] && full[j] == rest[j - |order|];
      }
    }
    assert forall t :: t in full <==> t in order || t in rest;
  }

  /** A run of `_clean_qualifiers` from `q` and `nq` that ends in `res`, taking
    * the detected tuples of round `i` in the order `rounds[i]`: nothing to do
    * when no non-qualifier is left or nothing is detected; otherwise one pass of
    * the replacement rule over the detected tuples (sorting them again on
    * line 179 leaves them as they are, `ResortedSorted`), then either the
    * error it raised or the recursive call of line 186. */
  ghost predicate CleanRun(m: array2<real>, entropies: seq<real>, q: seq<nat>, nq: seq<nat>,
                           rounds: seq<seq<seq<nat>>>, res: Result<Split>)
    reads m
    requires m.Length0 == m.Length1 == |entropies|
    requires AllBelow(q, |entropies|) && AllBelow(nq, |entropies|)
    decreases |rounds|
  {
    if nq == [] || SimilarQualifiers(m, q) == {} then
      rounds == [] && res == Success(Split(q, nq))
    else
      && rounds != []
      && (forall t :: t in rounds[0] <==> t in SimilarQualifiers(m, q)) && NoDuplicates(rounds[0])
      && var r := ReplaceAll(Split(q, nq), rounds[0], entropies);
         if r.Failure? then rounds == [rounds[0]] && res == r
         else CleanRun(m, entropies, r.value.qualifiers, r.value.nonQualifiers, rounds[1..], res)
  }

  /** One round over the detected tuples, in any order: `Refilled` with one
    * non-qualifier used up, or ValueError when two or more qualifiers are
    * similar to sentence 0, or an IndexError needing fewer than two qualifiers. */
  lemma RoundOutcome(m: array2<real>, entropies: seq<real>, q: seq<nat>, nq: seq<nat>, order: seq<seq<nat>>)
    requires m.Length0 == m.Length1 == |entropies|
    requires AllBelow(q, |entropies|) && AllBelow(nq, |entropies|)
    requires NoDuplicates(q + nq) && nq != [] && SimilarQualifiers(m, q) != {}
    requires forall t :: t in order <==> t in SimilarQualifiers(m, q)
    ensures var r := ReplaceAll(Split(q, nq), order, entropies);
            && (r.Success? ==> Refilled(q, nq, r.value.qualifiers, r.value.nonQualifiers, |entropies|)
                                && |r.value.nonQualifiers| < |nq|)
            && (SimilarToFirst(m, q) >= 2 ==> r == Failure(ValueError))
            && (r.Failure? ==> r.error == ValueError || (r.error == IndexError && |q| < 2))
  {
    DetectionShape(m, q);
    ReplaceAllOutcome(q, nq, SimilarQualifiers(m, q), order, entropies);
  }

  /** What every run of `_clean_qualifiers` yields: the lists keep `Refilled`
    * and end with no non-qualifier left or nothing detected; nothing changes
    * when there is nothing to do; two or more qualifiers similar to sentence 0
    * make the unpacking fail; an index error needs fewer than two qualifiers. */
  lemma {:induction false} CleanRunFacts(m: array2<real>, entropies: seq<real>, q: seq<nat>, nq: seq<nat>,
                                        rounds: seq<seq<seq<nat>>>, res: Result<Split>)
    requires m.Length0 == m.Length1 == |entropies|
    requires AllBelow(q, |entropies|) && AllBelow(nq, |entropies|)
    requires NoDuplicates(q + nq)
    requires CleanRun(m, entropies, q, nq, rounds, res)
    ensures res.Success? ==>
              var (q', nq') := (res.value.qualifiers, res.value.nonQualifiers);
              && Refilled(q, nq, q', nq', |entropies|)
              && (nq' == [] || SimilarQualifiers(m, q') == {})
    ensures nq == [] || SimilarQualifiers(m, q) == {} ==> res == Success(Split(q, nq))
    ensures nq != [] && SimilarToFirst(m, q) >= 2 ==> res == Failure(ValueError)
    ensures res.Failure? ==> res.error == ValueError || (res.error == IndexError && |q| < 2)
    decreases |rounds|
  {
    if nq == [] || SimilarQualifiers(m, q) == {} {
      RefilledStart(q, nq, |entropies|);
    } else {
      RoundOutcome(m, entropies, q, nq, rounds[0]);
      var r := ReplaceAll(Split(q, nq), rounds[0], entropies);
      if r.Success? {
        var (q1, nq1) := (r.value.qualifiers, r.value.nonQualifiers);
        CleanRunFacts(m, entropies, q1, nq1, rounds[1..], res);
        if res.Success? {
          RefilledTrans(q, nq, q1, nq1, res.value.qualifiers, res.value.nonQualifiers, |entropies|);
        }
      }
    }
  }

  /** Sorting the detected tuples again changes nothing, and they hold row
    * numbers or qualifier positions. */
  lemma DetectionResorted(m: array2<real>, qualifiers: seq<nat>)
    requires Readable(m, qualifiers)
    ensures Resorted(SimilarQualifiers(m, qualifiers)) == SimilarQualifiers(m, qualifiers)
    ensures forall t :: t in SimilarQualifiers(m, qualifiers) ==> AllBelow(t, Max(2, |qualifiers|))
  {
    DetectionShape(m, qualifiers);
    ResortedSorted(SimilarQualifiers(m, qualifiers));
  }

  /** A round that does not raise, followed by the rest of the run. */
  lemma CleanRunNext(m: array2<real>, entropies: seq<real>, q: seq<nat>, nq: seq<nat>,
                     order: seq<seq<nat>>, later: seq<seq<seq<nat>>>, res: Result<Split>)
    requires m.Length0 == m.Length1 == |entropies|
    requires AllBelow(q, |entropies|) && AllBelow(nq, |entropies|)
    requires nq != [] && SimilarQualifiers(m, q) != {}
    requires (forall t :: t in order <==> t in SimilarQualifiers(m, q)) && NoDuplicates(order)
    requires var r := ReplaceAll(Split(q, nq), order, entropies);
             r.Success? && CleanRun(m, entropies, r.value.qualifiers, r.value.nonQualifiers, later, res)
    ensures CleanRun(m, entropies, q, nq, [order] + later, res)
  {
    var rounds := [order] + later;
    assert rounds[0] == order && rounds[1..] == later;
  }

  /** `_clean_qualifiers` (summarizer.py:162-186). The Python function mutates
    * two lists local to `generate_summary`; here it takes them and returns
    * them, or the error raised. `rounds` is the order in which each round
    * iterated its set of tuples. */
  method CleanQualifiers(qualifiers: seq<nat>, nonQualifiers: seq<nat>, matrix: array2<real>,
                         entropies: seq<real>)
    returns (res: Result<Split>, ghost rounds: seq<seq<seq<nat>>>)
    requires matrix.Length0 == matrix.Length1 == |entropies|
    requires AllBelow(qualifiers, |entropies|) && AllBelow(nonQualifiers, |entropies|)
    requires NoDuplicates(qualifiers + nonQualifiers)
    // the result is that of the replacement rule, round after round
    ensures CleanRun(matrix, entropies, qualifiers, nonQualifiers, rounds, res)
    // the new lists: as many qualifiers as before, nothing duplicated and nothing
    // invented, non-qualifiers consumed from the front, and at the end either
    // no non-qualifier left or nothing detected
    ensures res.Success? ==>
              var (q', nq') := (res.value.qualifiers, res.value.nonQualifiers);
              && Refilled(qualifiers, nonQualifiers, q', nq', |entropies|)
              && (nq' == [] || SimilarQualifiers(matrix, q') == {})
    // no change when there is nothing to swap in or nothing is detected
    ensures nonQualifiers == [] || SimilarQualifiers(matrix, qualifiers) == {} ==>
              res == Success(Split(qualifiers, nonQualifiers))
    // two or more qualifiers similar to sentence 0 make the unpacking fail
    ensures nonQualifiers != [] && SimilarToFirst(matrix, qualifiers) >= 2 ==>
              res == Failure(ValueError)
    // an index error needs fewer than two qualifiers
    ensures res.Failure? ==>
              res.error == ValueError || (res.error == IndexError && |qualifiers| < 2)
    decreases |nonQualifiers|
  {
    var similar := SimilarQualifiers(matrix, qualifiers);
    if nonQualifiers == [] || similar == {} {
      res, rounds := Success(Split(qualifiers, nonQualifiers)), [];
    } else {
      // line 179 sorts the tuples again; sorted tuples stay as they are
      var pairs := Resorted(similar);
      DetectionResorted(matrix, qualifiers);
      var replaced, order := ReplaceSimilar(qualifiers, nonQualifiers, pairs, entropies);
      if replaced.Failure? {
        res, rounds := Failure(replaced.error), [order];
      } else {
        var q, nq := replaced.value.qualifiers, replaced.value.nonQualifiers;
        ghost var later;
        res, later := CleanQualifiers(q, nq, matrix, entropies);
        rounds := [order] + later;
        CleanRunNext(matrix, entropies, qualifiers, nonQualifiers, order, later, res);
      }
    }
    CleanRunFacts(matrix, entropies, qualifiers, nonQualifiers, rounds, res);
  }
}
