/** Ties in the ranking: when a strictly better candidate gets the closeness of another one, because every
    stage rounds to three decimals. */
module Ties {
  import opened Sums
  import opened Topsis
  import opened Ranking

  // ---------------------------------------------------------------- rows that are equal

  /** The weighted, rounded rows the distances are measured on. */
  function RoundedRows(cs: seq<Criteria>, w: Weights, root: real -> real): (m: Matrix)
    ensures |m| == |cs| && Rectangular(m, 7)
  {
    Weighted(Normalized(EvaluationMatrix(cs), 7, root), WeightRow(w))
  }

  /** Candidates whose rounded rows agree tie, among however many. */
  lemma SameRowsTie(cs: seq<Criteria>, w: Weights, root: real -> real, a: nat, b: nat)
    requires a < |cs| && b < |cs| && RoundedRows(cs, w, root)[a] == RoundedRows(cs, w, root)[b]
    ensures Scored(cs, w, root)[a].closeness == Scored(cs, w, root)[b].closeness
  {
    hide Separation, RelativeCloseness, Normalized, Weighted, Extremes;
  }

  /** Of two candidates the later one, at least as good in every criterion, ties with the earlier one, which
      is then chosen, exactly when the roundings make their rows equal. */
  lemma {:induction false} BetterNodeTiesIff(cs: seq<Criteria>, w: Weights, root: real -> real)
    requires |cs| == 2 && AtLeastAsGood(cs[1], cs[0]) && IsSquareRoot(root) && NonNegativeWeights(w)
    ensures Scored(cs, w, root)[1].closeness == Scored(cs, w, root)[0].closeness
       <==> RoundedRows(cs, w, root)[0] == RoundedRows(cs, w, root)[1]
  {
    var m, weights := EvaluationMatrix(cs), WeightRow(w);
    assert Dominates(EvaluationRow(cs[1]), EvaluationRow(cs[0]), BENEFIT_SCALE_DOWN);
    StagesKeepDominance(m, weights, BENEFIT_SCALE_DOWN, root, 1, 0);
    if RoundedRows(cs, w, root)[0] == RoundedRows(cs, w, root)[1] {
      SameRowsTie(cs, w, root, 0, 1);
    } else {
      hide Normalized, Weighted, EvaluationMatrix, WeightRow, IsSquareRoot, RelativeCloseness, Separation, Extremes;
      var rows := RoundedRows(cs, w, root);
      assert RowsAreRounded(rows) by { WeightedIsRounded(Normalized(m, 7, root), weights); }
      TwoRowsDiffer(rows, BENEFIT_SCALE_DOWN, root);
    }
  }

  /** Two nodes alike but for their draw, 1000 and 1001: switching off the second saves more, and yet they
      tie, whatever the weights. */
  lemma {:induction false} BetterNodeCanTie(cs: seq<Criteria>, w: Weights, root: real -> real)
    requires IsSquareRoot(root)
    requires cs == [Criteria("a", 0, 1000.0, 0, 0, 0, 0, 0), Criteria("b", 0, 1001.0, 0, 0, 0, 0, 0)]
    ensures AtLeastAsGood(cs[1], cs[0]) && !AtLeastAsGood(cs[0], cs[1])
    ensures Scored(cs, w, root)[0].closeness == Scored(cs, w, root)[1].closeness
  {
    var m := EvaluationMatrix(cs);
    var n := Normalized(m, 7, root);
    forall k | 0 <= k < 7 ensures n[0][k] == n[1][k] {
      if k == 1 {
        assert SumSquares(m, 1, 0) == 0.0 && SumSquares(m, 1, 1) == 1000000.0 && SumSquares(m, 1, 2) == 2002001.0;
        RoundedAlike(root(SumSquares(m, 1, 2)));
      } else {
        assert m[0][k] == m[1][k];
      }
    }
    hide Normalized, EvaluationMatrix, Scored;
    assert n[0] == n[1];
    assert RoundedRows(cs, w, root)[0] == RoundedRows(cs, w, root)[1];
    SameRowsTie(cs, w, root, 0, 1);
  }

  lemma RoundedAlike(norm: real)
    requires norm >= 0.0 && Square(norm) == 2002001.0
    ensures NormalizedEntry(1000.0, norm) == NormalizedEntry(1001.0, norm)
  {
    if norm < 1414.9 { SquareOrder(norm, 1414.9); }
    if norm > 1415.0 { SquareOrder(1415.0, norm); }
    RoundsTo707(1000.0, norm);
    RoundsTo707(1001.0, norm);
  }

  lemma ProductQuotient(c: real, d: real)
    requires d > 0.0
    ensures c * d / d == c
  {
  }

  lemma RoundsTo707(x: real, norm: real)
    requires 1414.9 <= norm <= 1415.0 && 1000.0 <= x <= 1001.0
    ensures NormalizedEntry(x, norm) == 0.707
  {
    var q := x / norm;
    DivMono(0.7065 * norm, x, norm);
    DivMono(x, 0.70749 * norm, norm);
    ProductQuotient(0.7065, norm);
    ProductQuotient(0.70749, norm);
    assert RoundHalfAway(q * 1000.0) == 707;
  }

  // ---------------------------------------------------------------- two rows

  function Thousandths(i: int): real {
    i as real / 1000.0
  }

  ghost predicate IsRounded(x: real) {
    exists i :: x == Thousandths(i)
  }

  ghost predicate RowsAreRounded(rows: Matrix) {
    forall i, k :: 0 <= i < |rows| && 0 <= k < |rows[i]| ==> IsRounded(rows[i][k])
  }

  lemma WeightedIsRounded(m: Matrix, weights: seq<real>)
    requires forall i :: 0 <= i < |m| ==> |m[i]| == |weights|
    ensures RowsAreRounded(Weighted(m, weights))
  {
    forall i, k | 0 <= i < |m| && 0 <= k < |weights| ensures IsRounded(Weighted(m, weights)[i][k]) {
      assert WeightedEntry(m[i][k], weights[k]) == Thousandths(RoundHalfAway(m[i][k] * weights[k] * 1000.0));
    }
  }

  lemma RoundedApart(x: real, y: real)
    requires IsRounded(x) && IsRounded(y) && x != y
    ensures Square(x - y) >= 0.000001
  {
    var i :| x == Thousandths(i);
    var j :| y == Thousandths(j);
    var d := (i - j) as real;
    assert x - y == d / 1000.0;
    if i > j { SquareOrder(0.001, x - y); } else { SquareOrder(0.001, y - x); }
    assert Square(x - y) == Square(y - x);
  }

  lemma {:induction false} DistanceAtLeast(a: seq<real>, b: seq<real>, k: nat, n: nat)
    requires |a| == |b| && k < n <= |a|
    ensures SquaredDistance(a, b, n) >= Square(a[k] - b[k])
  {
    hide Square;
    SquareNonNegative(a[n - 1] - b[n - 1]);
    if k < n - 1 { DistanceAtLeast(a, b, k, n - 1); }
  }

  lemma SquareNonNegative(x: real)
    ensures Square(x) >= 0.0
  {
  }

  lemma {:induction false} DistanceIsSymmetric(a: seq<real>, b: seq<real>, n: nat)
    requires |a| == |b| && n <= |a|
    ensures SquaredDistance(a, b, n) == SquaredDistance(b, a, n)
    ensures SquaredDistance(a, a, n) == 0.0
  {
    if n > 0 { DistanceIsSymmetric(a, b, n - 1); }
  }

  /** The better of two rows is the ideal, the other one the negative ideal. */
  lemma ExtremesOfTwo(rows: Matrix, benefit: seq<bool>)
    requires |rows| == 2 && |rows[0]| == |rows[1]| == |benefit| && Dominates(rows[1], rows[0], benefit)
    ensures Extremes(rows, benefit, true) == rows[1] && Extremes(rows, benefit, false) == rows[0]
  {
    forall k | 0 <= k < |benefit|
      ensures Extremes(rows, benefit, true)[k] == rows[1][k] && Extremes(rows, benefit, false)[k] == rows[0][k]
    {
      assert ColumnMax(rows, k, 1) == rows[0][k] == ColumnMin(rows, k, 1);
    }
  }

  lemma SeparationsOfTwo(a: seq<real>, b: seq<real>, root: real -> real)
    requires |a| == |b| && a != b && IsSquareRoot(root)
    requires forall k :: 0 <= k < |a| ==> IsRounded(a[k]) && IsRounded(b[k])
    ensures Separation(a, b, root) == Separation(b, a, root) >= 0.001
    ensures Separation(a, a, root) == 0.0 == Separation(b, b, root)
  {
    var k :| 0 <= k < |a| && a[k] != b[k];
    RoundedApart(a[k], b[k]);
    DistanceAtLeast(a, b, k, |a|);
    DistanceIsSymmetric(a, b, |a|);
    DistanceIsSymmetric(b, a, |a|);
    RootUnique(root, 0.0, 0.0);
    RootUnique(root, 0.000001, 0.001);
    RootMonotone(root, 0.000001, SquaredDistance(a, b, |a|));
    RoundMonotone(0.001, root(SquaredDistance(a, b, |a|)));
    assert Round3(0.001) == 0.001 && Round3(0.0) == 0.0;
  }

  /** Two rows that differ score 1 and 0. */
  lemma TwoRowsDiffer(rows: Matrix, benefit: seq<bool>, root: real -> real)
    requires |rows| == 2 && |rows[0]| == |rows[1]| == |benefit| && Dominates(rows[1], rows[0], benefit)
    requires rows[0] != rows[1] && RowsAreRounded(rows) && IsSquareRoot(root)
    ensures var ideal, worst := Extremes(rows, benefit, true), Extremes(rows, benefit, false);
            && RelativeCloseness(Separation(rows[1], ideal, root), Separation(rows[1], worst, root)) == 1.0
            && RelativeCloseness(Separation(rows[0], ideal, root), Separation(rows[0], worst, root)) == 0.0
  {
    ExtremesOfTwo(rows, benefit);
    forall k | 0 <= k < |benefit| ensures IsRounded(rows[0][k]) && IsRounded(rows[1][k]) {}
    SeparationsOfTwo(rows[0], rows[1], root);
    hide Extremes, Separation, IsRounded, IsSquareRoot, RowsAreRounded;
    FarAndNear(Separation(rows[0], rows[1], root));
  }

  lemma FarAndNear(d: real)
    requires d > 0.0
    ensures RelativeCloseness(0.0, d) == 1.0 && RelativeCloseness(d, 0.0) == 0.0
  {
    assert d / d == 1.0 && 0.0 / d == 0.0;
  }

  // ---------------------------------------------------------------- any number of candidates

  /** The closeness of a row among the rounded rows. */
  function RowCloseness(rows: Matrix, benefit: seq<bool>, root: real -> real, i: nat): real
    requires i < |rows| && Rectangular(rows, |benefit|)
  {
    RelativeCloseness(Separation(rows[i], Extremes(rows, benefit, true), root),
                      Separation(rows[i], Extremes(rows, benefit, false), root))
  }

  lemma ScoredByRow(cs: seq<Criteria>, w: Weights, root: real -> real, i: nat)
    requires i < |cs|
    ensures Scored(cs, w, root)[i].closeness == RowCloseness(RoundedRows(cs, w, root), BENEFIT_SCALE_DOWN, root, i)
  {
    hide Separation, RelativeCloseness, Normalized, Weighted, Extremes;
  }

  lemma NearIdeal(near: real, far: real)
    requires near >= 0.001 && far >= 0.0 && near + far < 2.0
    ensures RelativeCloseness(near, far) <= 0.999
  {
    ShareBelow(near, far);
    assert RoundHalfAway(far / (near + far) * 1000.0) <= 999;
  }

  lemma ShareBelow(near: real, far: real)
    requires near >= 0.001 && far >= 0.0 && near + far < 2.0
    ensures far / (near + far) < 0.9995
  {
    var sum := near + far;
    var q := far / sum;
    assert q * sum == far;
    if q >= 0.9995 { MulMono(sum, 0.9995, q); }
  }

  lemma AboveWorst(near: real, far: real)
    requires far >= 0.001 && near >= 0.0 && near + far <= 2.0
    ensures RelativeCloseness(near, far) >= 0.001
  {
    var sum := near + far;
    DivMono(0.0005 * sum, far, sum);
    ProductQuotient(0.0005, sum);
    RoundMonotone(0.0005, far / sum);
    assert Round3(0.0005) == 0.001;
  }

  /** A row away from the ideal has positive separation from it, and so has the worst row. */
  lemma AwayFromIdeal(rows: Matrix, benefit: seq<bool>, root: real -> real, i: nat)
    requires i < |rows| && Rectangular(rows, |benefit|) && RowsAreRounded(rows) && IsSquareRoot(root)
    requires rows[i] != Extremes(rows, benefit, true) || rows[i] != Extremes(rows, benefit, false)
    ensures var ideal, worst := Extremes(rows, benefit, true), Extremes(rows, benefit, false);
            && Separation(ideal, worst, root) == Separation(worst, ideal, root) >= 0.001
            && Separation(ideal, ideal, root) == 0.0 == Separation(worst, worst, root)
            && Separation(rows[i], ideal, root) >= 0.0 && Separation(rows[i], worst, root) >= 0.0
            && (rows[i] != ideal ==> Separation(rows[i], ideal, root) >= 0.001)
            && (rows[i] != worst ==> Separation(rows[i], worst, root) >= 0.001)
  {
    var ideal, worst := Extremes(rows, benefit, true), Extremes(rows, benefit, false);
    ExtremesAreRounded(rows, benefit);
    if ideal == worst { OnlyOneRow(rows, benefit, i); }
    forall k | 0 <= k < |benefit| ensures IsRounded(rows[i][k]) {}
    hide Extremes, IsRounded, RowsAreRounded, Separation, IsSquareRoot;
    SeparationsOfTwo(ideal, worst, root);
    if rows[i] != ideal { SeparationsOfTwo(rows[i], ideal, root); }
    if rows[i] != worst { SeparationsOfTwo(rows[i], worst, root); }
  }

  lemma {:induction false} ColumnEntries(m: Matrix, k: nat, n: nat) returns (hi: nat, lo: nat)
    requires 0 < n <= |m| && forall i :: 0 <= i < n ==> k < |m[i]|
    ensures hi < n && m[hi][k] == ColumnMax(m, k, n) && lo < n && m[lo][k] == ColumnMin(m, k, n)
  {
    hi, lo := 0, 0;
    if n > 1 {
      hi, lo := ColumnEntries(m, k, n - 1);
      if m[n - 1][k] > ColumnMax(m, k, n - 1) { hi := n - 1; }
      if m[n - 1][k] < ColumnMin(m, k, n - 1) { lo := n - 1; }
    }
  }

  lemma ExtremesAreRounded(rows: Matrix, benefit: seq<bool>)
    requires rows != [] && Rectangular(rows, |benefit|) && RowsAreRounded(rows)
    ensures forall k :: 0 <= k < |benefit| ==>
              IsRounded(Extremes(rows, benefit, true)[k]) && IsRounded(Extremes(rows, benefit, false)[k])
  {
    forall k | 0 <= k < |benefit|
      ensures IsRounded(Extremes(rows, benefit, true)[k]) && IsRounded(Extremes(rows, benefit, false)[k])
    {
      var hi, lo := ColumnEntries(rows, k, |rows|);
      assert IsRounded(rows[hi][k]) && IsRounded(rows[lo][k]);
    }
  }

  /** When the best and the worst value of every column agree, all rows are that one. */
  lemma OnlyOneRow(rows: Matrix, benefit: seq<bool>, i: nat)
    requires i < |rows| && Rectangular(rows, |benefit|)
    requires Extremes(rows, benefit, true) == Extremes(rows, benefit, false)
    ensures rows[i] == Extremes(rows, benefit, true)
  {
    forall k | 0 <= k < |benefit| ensures rows[i][k] == Extremes(rows, benefit, true)[k] {
      assert Extremes(rows, benefit, true)[k] == Extremes(rows, benefit, false)[k];
    }
  }

  /** Row b is the best in every column, or row a the worst, and neither is two or more away from the two. */
  ghost predicate IsExtremePair(rows: Matrix, benefit: seq<bool>, root: real -> real, a: nat, b: nat)
    requires a < |rows| && b < |rows| && Rectangular(rows, |benefit|)
  {
    var ideal, worst := Extremes(rows, benefit, true), Extremes(rows, benefit, false);
    || (rows[b] == ideal && Separation(rows[a], ideal, root) + Separation(rows[a], worst, root) < 2.0)
    || (rows[a] == worst && Separation(rows[b], ideal, root) + Separation(rows[b], worst, root) <= 2.0)
  }

  /** Then they differ only with a gap in closeness that no rounding closes. */
  lemma ExtremeRowsDiffer(rows: Matrix, benefit: seq<bool>, root: real -> real, a: nat, b: nat)
    requires a < |rows| && b < |rows| && Rectangular(rows, |benefit|) && RowsAreRounded(rows) && IsSquareRoot(root)
    requires IsExtremePair(rows, benefit, root, a, b) && rows[a] != rows[b]
    ensures RowCloseness(rows, benefit, root, a) < RowCloseness(rows, benefit, root, b)
  {
    var ideal, worst := Extremes(rows, benefit, true), Extremes(rows, benefit, false);
    if rows[b] == ideal && Separation(rows[a], ideal, root) + Separation(rows[a], worst, root) < 2.0 {
      AwayFromIdeal(rows, benefit, root, a);
      hide Extremes, Separation, RelativeCloseness, IsSquareRoot, RowsAreRounded;
      NearIdeal(Separation(rows[a], ideal, root), Separation(rows[a], worst, root));
      FarAndNear(Separation(ideal, worst, root));
    } else {
      AwayFromIdeal(rows, benefit, root, b);
      hide Extremes, Separation, RelativeCloseness, IsSquareRoot, RowsAreRounded;
      AboveWorst(Separation(rows[b], ideal, root), Separation(rows[b], worst, root));
      FarAndNear(Separation(worst, ideal, root));
    }
  }

  /** Among however many candidates: one that is the best in every criterion ties with another, and one that
      is the worst in every criterion with another, exactly when the roundings make their rows equal. */
  lemma {:induction false} ExtremeNodeTiesIff(cs: seq<Criteria>, w: Weights, root: real -> real, a: nat, b: nat)
    requires a < |cs| && b < |cs| && IsSquareRoot(root)
    requires IsExtremePair(RoundedRows(cs, w, root), BENEFIT_SCALE_DOWN, root, a, b)
    ensures Scored(cs, w, root)[a].closeness == Scored(cs, w, root)[b].closeness
       <==> RoundedRows(cs, w, root)[a] == RoundedRows(cs, w, root)[b]
  {
    var rows := RoundedRows(cs, w, root);
    if rows[a] == rows[b] {
      SameRowsTie(cs, w, root, a, b);
    } else {
      assert RowsAreRounded(rows) by { WeightedIsRounded(Normalized(EvaluationMatrix(cs), 7, root), WeightRow(w)); }
      ScoredByRow(cs, w, root, a);
      ScoredByRow(cs, w, root, b);
      hide RoundedRows, Scored, RowCloseness, IsExtremePair, RowsAreRounded, IsSquareRoot;
      ExtremeRowsDiffer(rows, BENEFIT_SCALE_DOWN, root, a, b);
    }
  }

  // ---------------------------------------------------------------- rows that differ, and a tie

  lemma RootRoundsTo(root: real -> real, x: real, lo: real, hi: real, i: int)
    requires IsSquareRoot(root) && 0.0 <= lo && 0.0 <= hi && Square(lo) <= x < Square(hi)
    requires lo * 1000.0 == i as real - 0.5 && hi * 1000.0 == i as real + 0.5
    ensures Round3(root(x)) == Thousandths(i)
  {
    var r := root(x);
    if r < lo { SquareOrder(r, lo); }
    if r >= hi { SquareOrder(hi, r); }
    assert RoundHalfAway(r * 1000.0) == i;
  }

  /** Two nodes with one power cycle and a draw of 1000 and 1010, and one with no power cycle and one pod. */
  function ThreeNodes(): seq<Criteria> {
    [Criteria("a", 1, 1000.0, 0, 0, 0, 0, 0), Criteria("b", 1, 1010.0, 0, 0, 0, 0, 0),
     Criteria("c", 0, 1000.0, 0, 0, 0, 1, 0)]
  }

  function ThreeWeights(): Weights {
    Weights(0.25, 0.25, 0.0, 0.0, 0.0, 0.5, 0.0)
  }

  lemma SumOfThree(m: Matrix, k: nat)
    requires |m| == 3 && k < |m[0]| && k < |m[1]| && k < |m[2]|
    ensures SumSquares(m, k, 3) == Square(m[0][k]) + Square(m[1][k]) + Square(m[2][k])
  {
    hide Square;
    assert SumSquares(m, k, 0) == 0.0;
    assert SumSquares(m, k, 1) == Square(m[0][k]);
    assert SumSquares(m, k, 2) == Square(m[0][k]) + Square(m[1][k]);
  }

  lemma SquaresOfEntries()
    ensures Square(0.0) == 0.0 && Square(1.0) == 1.0 && Square(1000.0) == 1000000.0 && Square(1010.0) == 1020100.0
  {
  }

  lemma SquaresOfThree(m: Matrix)
    requires m == [[1.0, 1000.0, 0.0, 0.0, 0.0, 0.0, 0.0], [1.0, 1010.0, 0.0, 0.0, 0.0, 0.0, 0.0],
                   [0.0, 1000.0, 0.0, 0.0, 0.0, 1.0, 0.0]]
    ensures SumSquares(m, 0, 3) == 2.0 && SumSquares(m, 1, 3) == 3020100.0 && SumSquares(m, 5, 3) == 1.0
  {
    SumOfThree(m, 0);
    SumOfThree(m, 1);
    SumOfThree(m, 5);
    SquaresOfEntries();
    hide Square, SumSquares;
  }

  /** An entry, from bounds on the norm of its column. */
  lemma NormalizedTo(v: real, norm: real, lo: real, hi: real, i: int)
    requires norm > 0.0 && lo * norm <= v <= hi * norm
    requires lo * 1000.0 >= i as real - 0.5 && hi * 1000.0 < i as real + 0.5 && i > 0
    ensures NormalizedEntry(v, norm) == Thousandths(i)
  {
    DivMono(lo * norm, v, norm);
    DivMono(v, hi * norm, norm);
    ProductQuotient(lo, norm);
    ProductQuotient(hi, norm);
    assert RoundHalfAway(v / norm * 1000.0) == i;
  }

  lemma EnergyColumn(norm: real)
    requires norm >= 0.0 && Square(norm) == 3020100.0
    ensures NormalizedEntry(1000.0, norm) == 0.575 && NormalizedEntry(1010.0, norm) == 0.581
  {
    if norm < 1737.8 { SquareOrder(norm, 1737.8); }
    if norm > 1737.9 { SquareOrder(1737.9, norm); }
    NormalizedTo(1000.0, norm, 0.575, 0.5754999, 575);
    NormalizedTo(1010.0, norm, 0.581, 0.5814, 581);
  }

  lemma PowerCycleColumn(norm: real)
    requires norm >= 0.0 && Square(norm) == 2.0
    ensures NormalizedEntry(1.0, norm) == 0.707
  {
    if norm < 1.414 { SquareOrder(norm, 1.414); }
    if norm > 1.415 { SquareOrder(1.415, norm); }
    NormalizedTo(1.0, norm, 0.7066, 0.7074, 707);
  }

  lemma ZeroEntry(norm: real)
    ensures NormalizedEntry(0.0, norm) == 0.0
  {
    if norm != 0.0 { assert 0.0 / norm == 0.0; }
  }

  lemma NormalizedThree(root: real -> real, n: Matrix)
    requires IsSquareRoot(root) && n == Normalized(EvaluationMatrix(ThreeNodes()), 7, root)
    ensures n == [[0.707, 0.575, 0.0, 0.0, 0.0, 0.0, 0.0], [0.707, 0.581, 0.0, 0.0, 0.0, 0.0, 0.0],
                  [0.0, 0.575, 0.0, 0.0, 0.0, 1.0, 0.0]]
  {
    var m := EvaluationMatrix(ThreeNodes());
    assert m == [[1.0, 1000.0, 0.0, 0.0, 0.0, 0.0, 0.0], [1.0, 1010.0, 0.0, 0.0, 0.0, 0.0, 0.0],
                 [0.0, 1000.0, 0.0, 0.0, 0.0, 1.0, 0.0]];
    SquaresOfThree(m);
    PowerCycleColumn(root(2.0));
    EnergyColumn(root(3020100.0));
    RootUnique(root, 1.0, 1.0);
    assert NormalizedEntry(1.0, 1.0) == 1.0;
    forall k: nat | k < 7 ensures NormalizedEntry(0.0, root(SumSquares(m, k, 3))) == 0.0 {
      ZeroEntry(root(SumSquares(m, k, 3)));
    }
    hide EvaluationMatrix, SumSquares, NormalizedEntry, IsSquareRoot, ThreeNodes;
    assert |n| == 3;
    assert n[0] == [0.707, 0.575, 0.0, 0.0, 0.0, 0.0, 0.0];
    assert n[1] == [0.707, 0.581, 0.0, 0.0, 0.0, 0.0, 0.0];
    assert n[2] == [0.0, 0.575, 0.0, 0.0, 0.0, 1.0, 0.0];
  }

  lemma WeightedThree(n: Matrix, weights: seq<real>)
    requires n == [[0.707, 0.575, 0.0, 0.0, 0.0, 0.0, 0.0], [0.707, 0.581, 0.0, 0.0, 0.0, 0.0, 0.0],
                   [0.0, 0.575, 0.0, 0.0, 0.0, 1.0, 0.0]]
    requires weights == [0.25, 0.25, 0.0, 0.0, 0.0, 0.5, 0.0]
    ensures Weighted(n, weights) == [RowA(), RowB(), RowC()]
  {
    WeightedEntries();
    hide WeightedEntry;
    var rows := Weighted(n, weights);
    assert rows[0] == RowA();
    assert rows[1] == RowB();
    assert rows[2] == RowC();
  }

  lemma WeightedEntries()
    ensures WeightedEntry(0.707, 0.25) == 0.177 && WeightedEntry(0.575, 0.25) == 0.144
    ensures WeightedEntry(0.581, 0.25) == 0.145 && WeightedEntry(1.0, 0.5) == 0.5
    ensures WeightedEntry(0.0, 0.25) == 0.0 && WeightedEntry(0.0, 0.0) == 0.0 && WeightedEntry(0.0, 0.5) == 0.0
  {
    RoundsTo(0.17675, 177);
    RoundsTo(0.14375, 144);
    RoundsTo(0.14525, 145);
    RoundsTo(0.5, 500);
    RoundsTo(0.0, 0);
    hide Round3;
  }

  lemma RoundsTo(x: real, i: int)
    requires x >= 0.0 && i as real - 0.5 <= x * 1000.0 < i as real + 0.5
    ensures Round3(x) == Thousandths(i)
  {
    assert RoundHalfAway(x * 1000.0) == i;
  }

  function RowA(): seq<real> {
    [0.177, 0.144, 0.0, 0.0, 0.0, 0.0, 0.0]
  }

  function RowB(): seq<real> {
    [0.177, 0.145, 0.0, 0.0, 0.0, 0.0, 0.0]
  }

  function RowC(): seq<real> {
    [0.0, 0.144, 0.0, 0.0, 0.0, 0.5, 0.0]
  }

  function Ideal(): seq<real> {
    [0.0, 0.145, 0.0, 0.0, 0.0, 0.0, 0.0]
  }

  function Worst(): seq<real> {
    [0.177, 0.144, 0.0, 0.0, 0.0, 0.5, 0.0]
  }

  lemma ExtremesOfThree(rows: Matrix)
    requires rows == [RowA(), RowB(), RowC()]
    ensures Extremes(rows, BENEFIT_SCALE_DOWN, true) == Ideal()
    ensures Extremes(rows, BENEFIT_SCALE_DOWN, false) == Worst()
  {
    forall k | 0 <= k < 7
      ensures Extremes(rows, BENEFIT_SCALE_DOWN, true)[k] == Ideal()[k]
      ensures Extremes(rows, BENEFIT_SCALE_DOWN, false)[k] == Worst()[k]
    {
      assert ColumnMax(rows, k, 1) == rows[0][k] == ColumnMin(rows, k, 1);
      assert ColumnMax(rows, k, 2) == if rows[1][k] > rows[0][k] then rows[1][k] else rows[0][k];
      assert ColumnMin(rows, k, 2) == if rows[1][k] < rows[0][k] then rows[1][k] else rows[0][k];
    }
  }

  lemma DistanceOfSeven(a: seq<real>, p: seq<real>)
    requires |a| == |p| == 7
    ensures SquaredDistance(a, p, 7)
         == Square(a[0] - p[0]) + Square(a[1] - p[1]) + Square(a[2] - p[2]) + Square(a[3] - p[3])
            + Square(a[4] - p[4]) + Square(a[5] - p[5]) + Square(a[6] - p[6])
  {
    hide Square;
    assert SquaredDistance(a, p, 0) == 0.0;
    assert SquaredDistance(a, p, 2) == Square(a[0] - p[0]) + Square(a[1] - p[1]);
    assert SquaredDistance(a, p, 4)
        == SquaredDistance(a, p, 2) + Square(a[2] - p[2]) + Square(a[3] - p[3]);
    assert SquaredDistance(a, p, 6)
        == SquaredDistance(a, p, 4) + Square(a[4] - p[4]) + Square(a[5] - p[5]);
  }

  lemma SquaresAre()
    ensures Square(0.0) == 0.0 && Square(0.001) == Square(-0.001) == 0.000001
    ensures Square(0.177) == Square(-0.177) == 0.031329 && Square(0.5) == Square(-0.5) == 0.25
  {
  }

  /** The distance of rows that differ in the first, the second and the sixth column alone. */
  lemma DistanceOfRows(a: seq<real>, p: seq<real>, x: real, y: real, z: real)
    requires |a| == |p| == 7 && a[0] - p[0] == x && a[1] - p[1] == y && a[5] - p[5] == z
    requires a[2] == p[2] && a[3] == p[3] && a[4] == p[4] && a[6] == p[6]
    ensures SquaredDistance(a, p, 7) == Square(x) + Square(y) + Square(z)
  {
    DistanceOfSeven(a, p);
    SquaresAre();
    hide Square, SquaredDistance;
  }

  lemma DistancesOfThree()
    ensures SquaredDistance(RowA(), Ideal(), 7) == 0.03133 && SquaredDistance(RowB(), Ideal(), 7) == 0.031329
    ensures SquaredDistance(RowA(), Worst(), 7) == 0.25 && SquaredDistance(RowB(), Worst(), 7) == 0.250001
    ensures SquaredDistance(RowC(), Ideal(), 7) == 0.250001 && SquaredDistance(RowC(), Worst(), 7) == 0.031329
  {
    hide Square, SquaredDistance;
    SquaresAre();
    DistanceOfRows(RowA(), Ideal(), 0.177, -0.001, 0.0);
    DistanceOfRows(RowB(), Ideal(), 0.177, 0.0, 0.0);
    DistanceOfRows(RowC(), Ideal(), 0.0, -0.001, 0.5);
    DistanceOfRows(RowA(), Worst(), 0.0, 0.0, -0.5);
    DistanceOfRows(RowB(), Worst(), 0.0, 0.001, -0.5);
    DistanceOfRows(RowC(), Worst(), -0.177, 0.0, 0.0);
  }

  lemma SeparationsOfThree(root: real -> real)
    requires IsSquareRoot(root)
    ensures Separation(RowA(), Ideal(), root) == Separation(RowB(), Ideal(), root) == 0.177
    ensures Separation(RowA(), Worst(), root) == Separation(RowB(), Worst(), root) == 0.5
    ensures Separation(RowC(), Ideal(), root) == 0.5 && Separation(RowC(), Worst(), root) == 0.177
  {
    DistancesOfThree();
    RootRoundsTo(root, 0.03133, 0.1765, 0.1775, 177);
    RootRoundsTo(root, 0.031329, 0.1765, 0.1775, 177);
    RootRoundsTo(root, 0.250001, 0.4995, 0.5005, 500);
    RootRoundsTo(root, 0.25, 0.4995, 0.5005, 500);
    assert |RowA()| == |RowB()| == |RowC()| == |Ideal()| == |Worst()| == 7;
    hide SquaredDistance, Round3, IsSquareRoot, RowA, RowB, RowC, Ideal, Worst;
  }

  lemma ClosenessOfThree()
    ensures RelativeCloseness(0.177, 0.5) > RelativeCloseness(0.5, 0.177)
  {
    RoundMonotone(0.7, 0.5 / (0.177 + 0.5));
    RoundMonotone(0.177 / (0.5 + 0.177), 0.3);
    RoundsTo(0.7, 700);
    RoundsTo(0.3, 300);
    hide Round3;
  }

  lemma RoundedThree(cs: seq<Criteria>, w: Weights, root: real -> real)
    requires cs == ThreeNodes() && w == ThreeWeights() && IsSquareRoot(root)
    ensures RoundedRows(cs, w, root) == [RowA(), RowB(), RowC()]
  {
    var n := Normalized(EvaluationMatrix(cs), 7, root);
    assert WeightRow(w) == [0.25, 0.25, 0.0, 0.0, 0.0, 0.5, 0.0];
    hide Normalized, Weighted, EvaluationMatrix, IsSquareRoot, ThreeNodes, ThreeWeights, WeightRow, RowA, RowB, RowC;
    NormalizedThree(root, n);
    WeightedThree(n, WeightRow(w));
  }

  lemma RankedThree(rows: Matrix, root: real -> real)
    requires rows == [RowA(), RowB(), RowC()] && Rectangular(rows, 7) && IsSquareRoot(root)
    ensures RowCloseness(rows, BENEFIT_SCALE_DOWN, root, 0) == RowCloseness(rows, BENEFIT_SCALE_DOWN, root, 1)
    ensures RowCloseness(rows, BENEFIT_SCALE_DOWN, root, 2) < RowCloseness(rows, BENEFIT_SCALE_DOWN, root, 0)
  {
    hide Extremes, Separation, RelativeCloseness, IsSquareRoot, RowA, RowB, RowC, Ideal, Worst;
    ExtremesOfThree(rows);
    SeparationsOfThree(root);
    ClosenessOfThree();
  }

  lemma ThreeFacts()
    ensures var cs, w := ThreeNodes(), ThreeWeights();
            |cs| == 3 && AtLeastAsGood(cs[1], cs[0]) && NonNegativeWeights(w) && RowA() != RowB()
  {
    assert RowA()[1] != RowB()[1];
  }

  /** b saves more than a and is like it otherwise, and its rounded row is better; yet the roundings of the
      separations make a and b tie at the head of the ranking. */
  lemma {:induction false} BetterRowCanTie(root: real -> real)
    requires IsSquareRoot(root)
    ensures var cs, w := ThreeNodes(), ThreeWeights();
            && AtLeastAsGood(cs[1], cs[0]) && NonNegativeWeights(w)
            && RoundedRows(cs, w, root)[0] != RoundedRows(cs, w, root)[1]
            && Scored(cs, w, root)[0].closeness == Scored(cs, w, root)[1].closeness
            && Scored(cs, w, root)[2].closeness < Scored(cs, w, root)[0].closeness
  {
    ThreeFacts();
    hide *;
    var cs, w := ThreeNodes(), ThreeWeights();
    var rows := RoundedRows(cs, w, root);
    RoundedThree(cs, w, root);
    RankedThree(rows, root);
    ScoredByRow(cs, w, root, 0);
    ScoredByRow(cs, w, root, 1);
    ScoredByRow(cs, w, root, 2);
  }
}
