/** The closeness of TOPSIS, told stage by stage without a way to compute it: the computation agrees. */
module TopsisStages {
  import opened Sums
  import opened Topsis

  // ---------------------------------------------------------------- the stages

  function Thousandths(n: int): real {
    n as real / 1000.0
  }

  /** r is the thousandth next to x, and the one farther from zero when two are equally near. */
  ghost predicate IsRounded(r: real, x: real) {
    exists n :: r == Thousandths(n) && IsNearest(n, 1000.0 * x)
  }

  ghost predicate IsNearest(n: int, y: real) {
    && n as real - 0.5 <= y <= n as real + 0.5
    && (y == n as real + 0.5 ==> n < 0) && (y == n as real - 0.5 ==> n > 0)
  }

  ghost predicate IsRootOf(d: real, square: real) {
    d >= 0.0 && d * d == square
  }

  function ColumnOf(m: Matrix, k: nat): (xs: seq<real>)
    requires forall i :: 0 <= i < |m| ==> k < |m[i]|
    ensures |xs| == |m| && forall i :: 0 <= i < |m| ==> xs[i] == m[i][k]
  {
    seq(|m|, i requires 0 <= i < |m| => m[i][k])
  }

  /** e is the value divided by the length of its column, and zero in a column of zeros. */
  ghost predicate IsNormalized(e: real, v: real, column: seq<real>) {
    exists norm ::
      IsRootOf(norm, Dot(column, column, |column|)) && if norm == 0.0 then e == 0.0 else IsRounded(e, v / norm)
  }

  ghost predicate IsWeighted(x: real, v: real, column: seq<real>, weight: real) {
    exists e :: IsNormalized(e, v, column) && IsRounded(x, e * weight)
  }

  ghost predicate AreWeighted(w: Matrix, m: Matrix, weights: seq<real>) {
    && |w| == |m| && Rectangular(m, |weights|) && Rectangular(w, |weights|)
    && forall i, k :: 0 <= i < |m| && 0 <= k < |weights| ==>
         IsWeighted(w[i][k], m[i][k], ColumnOf(m, k), weights[k])
  }

  /** x is the greatest (or the smallest) of the values. */
  ghost predicate IsExtreme(x: real, values: seq<real>, greatest: bool) {
    x in values && forall v :: v in values ==> if greatest then v <= x else x <= v
  }

  /** Per criterion the best value, or the worst: the greatest is best where more is a benefit. */
  ghost predicate IsIdeal(p: seq<real>, w: Matrix, benefit: seq<bool>, best: bool) {
    && |p| == |benefit| && Rectangular(w, |benefit|)
    && forall k :: 0 <= k < |benefit| ==> IsExtreme(p[k], ColumnOf(w, k), benefit[k] == best)
  }

  ghost predicate AreDifferences(diff: seq<real>, row: seq<real>, p: seq<real>) {
    |diff| == |row| == |p| && forall k :: 0 <= k < |row| ==> diff[k] == row[k] - p[k]
  }

  /** s is the distance between the two rows. */
  ghost predicate IsDistance(s: real, row: seq<real>, p: seq<real>) {
    exists diff, d :: AreDifferences(diff, row, p) && IsRootOf(d, Dot(diff, diff, |diff|)) && IsRounded(s, d)
  }

  /** c is the share of the distance from the worst in both distances, and zero when there is none. */
  ghost predicate IsShare(c: real, fromBest: real, fromWorst: real) {
    if fromBest + fromWorst == 0.0 then c == 0.0 else IsRounded(c, fromWorst / (fromBest + fromWorst))
  }

  ghost predicate IsShareOf(c: real, row: seq<real>, best: seq<real>, worst: seq<real>) {
    exists s, t :: IsDistance(s, row, best) && IsDistance(t, row, worst) && IsShare(c, s, t)
  }

  /** The closeness of alternative i. */
  ghost predicate IsClosenessOf(c: real, m: Matrix, weights: seq<real>, benefit: seq<bool>, i: nat) {
    exists w, best, worst ::
      && AreWeighted(w, m, weights) && i < |w|
      && IsIdeal(best, w, benefit, true) && IsIdeal(worst, w, benefit, false)
      && IsShareOf(c, w[i], best, worst)
  }

  // ---------------------------------------------------------------- the computation agrees

  lemma NearestIs(y: real)
    ensures IsNearest(RoundHalfAway(y), y)
  {
    if y < 0.0 {
      var f := (0.5 - y).Floor;
      assert f as real <= 0.5 - y < f as real + 1.0;
    }
  }

  lemma RoundedIs(x: real)
    ensures IsRounded(Round3(x), x)
  {
    NearestIs(1000.0 * x);
    hide IsNearest, RoundHalfAway;
    assert Round3(x) == Thousandths(RoundHalfAway(1000.0 * x));
  }

  lemma RootIs(root: real -> real, x: real)
    requires IsSquareRoot(root) && x >= 0.0
    ensures IsRootOf(root(x), x)
  {
  }

  lemma {:induction false} ColumnSquares(m: Matrix, k: nat, xs: seq<real>, n: nat)
    requires n <= |m| == |xs| && forall i :: 0 <= i < |m| ==> k < |m[i]| && m[i][k] == xs[i]
    ensures SumSquares(m, k, n) == Dot(xs, xs, n)
  {
    if n > 0 { ColumnSquares(m, k, xs, n - 1); }
  }

  lemma NormalizedIs(v: real, column: seq<real>, norm: real)
    requires IsRootOf(norm, Dot(column, column, |column|))
    ensures IsNormalized(NormalizedEntry(v, norm), v, column)
  {
    if norm != 0.0 { RoundedIs(v / norm); }
    hide IsRounded, IsRootOf, Dot, Round3;
  }

  lemma WeightedIs(e: real, v: real, column: seq<real>, weight: real)
    requires IsNormalized(e, v, column)
    ensures IsWeighted(WeightedEntry(e, weight), v, column, weight)
  {
    RoundedIs(e * weight);
    hide IsRounded, IsNormalized, Round3;
  }

  lemma EntryIs(m: Matrix, weights: seq<real>, root: real -> real, i: nat, k: nat)
    requires IsSquareRoot(root) && Rectangular(m, |weights|) && i < |m| && k < |weights|
    ensures IsWeighted(Weighted(Normalized(m, |weights|, root), weights)[i][k], m[i][k], ColumnOf(m, k), weights[k])
  {
    var column, norm := ColumnOf(m, k), root(SumSquares(m, k, |m|));
    ColumnSquares(m, k, column, |m|);
    RootIs(root, SumSquares(m, k, |m|));
    hide IsRootOf, Dot, SumSquares, IsNormalized, IsWeighted, NormalizedEntry, WeightedEntry;
    NormalizedIs(m[i][k], column, norm);
    WeightedIs(NormalizedEntry(m[i][k], norm), m[i][k], column, weights[k]);
  }

  lemma WeightedAre(m: Matrix, weights: seq<real>, root: real -> real)
    requires IsSquareRoot(root) && Rectangular(m, |weights|)
    ensures AreWeighted(Weighted(Normalized(m, |weights|, root), weights), m, weights)
  {
    hide IsWeighted, Weighted, Normalized;
    forall i, k | 0 <= i < |m| && 0 <= k < |weights|
      ensures IsWeighted(Weighted(Normalized(m, |weights|, root), weights)[i][k], m[i][k], ColumnOf(m, k), weights[k])
    {
      EntryIs(m, weights, root, i, k);
    }
  }

  lemma {:induction false} ColumnExtremes(m: Matrix, k: nat, n: nat)
    requires 0 < n <= |m| && forall i :: 0 <= i < |m| ==> k < |m[i]|
    ensures exists i :: 0 <= i < n && m[i][k] == ColumnMax(m, k, n)
    ensures exists i :: 0 <= i < n && m[i][k] == ColumnMin(m, k, n)
  {
    if n == 1 {
      assert m[0][k] == ColumnMax(m, k, 1) == ColumnMin(m, k, 1);
    } else {
      ColumnExtremes(m, k, n - 1);
    }
  }

  lemma ExtremeIs(w: Matrix, k: nat, greatest: bool)
    requires w != [] && forall i :: 0 <= i < |w| ==> k < |w[i]|
    ensures IsExtreme(if greatest then ColumnMax(w, k, |w|) else ColumnMin(w, k, |w|), ColumnOf(w, k), greatest)
  {
    ColumnExtremes(w, k, |w|);
    var column := ColumnOf(w, k);
    forall v | v in column ensures ColumnMin(w, k, |w|) <= v <= ColumnMax(w, k, |w|) {
      var i :| 0 <= i < |column| && column[i] == v;
      assert w[i][k] == v;
    }
    var i, j :| 0 <= i < |w| && w[i][k] == ColumnMax(w, k, |w|) && 0 <= j < |w| && w[j][k] == ColumnMin(w, k, |w|);
    assert column[i] in column && column[j] in column;
    hide ColumnMax, ColumnMin;
  }

  lemma IdealIs(w: Matrix, benefit: seq<bool>, best: bool)
    requires w != [] && Rectangular(w, |benefit|)
    ensures IsIdeal(Extremes(w, benefit, best), w, benefit, best)
  {
    hide IsExtreme, ColumnMax, ColumnMin;
    forall k | 0 <= k < |benefit|
      ensures IsExtreme(Extremes(w, benefit, best)[k], ColumnOf(w, k), benefit[k] == best)
    {
      ExtremeIs(w, k, benefit[k] == best);
    }
  }

  lemma {:induction false} DifferenceSquares(row: seq<real>, p: seq<real>, diff: seq<real>, k: nat)
    requires k <= |row| && AreDifferences(diff, row, p)
    ensures SquaredDistance(row, p, k) == Dot(diff, diff, k)
  {
    if k > 0 { DifferenceSquares(row, p, diff, k - 1); }
  }

  lemma DistanceIs(row: seq<real>, p: seq<real>, root: real -> real)
    requires IsSquareRoot(root) && |row| == |p|
    ensures IsDistance(Separation(row, p, root), row, p)
  {
    var diff := seq(|row|, k requires 0 <= k < |row| => row[k] - p[k]);
    DifferenceSquares(row, p, diff, |row|);
    var d := root(SquaredDistance(row, p, |row|));
    RootIs(root, SquaredDistance(row, p, |row|));
    RoundedIs(d);
    hide IsRounded, IsRootOf, Dot, SquaredDistance, Round3;
    assert AreDifferences(diff, row, p) && IsRootOf(d, Dot(diff, diff, |diff|)) && IsRounded(Round3(d), d);
  }

  lemma ShareIs(fromBest: real, fromWorst: real)
    ensures IsShare(RelativeCloseness(fromBest, fromWorst), fromBest, fromWorst)
  {
    if fromBest + fromWorst != 0.0 { RoundedIs(fromWorst / (fromBest + fromWorst)); }
    hide IsRounded;
  }

  lemma ShareOfRow(row: seq<real>, best: seq<real>, worst: seq<real>, root: real -> real)
    requires IsSquareRoot(root) && |row| == |best| == |worst|
    ensures IsShareOf(RelativeCloseness(Separation(row, best, root), Separation(row, worst, root)), row, best, worst)
  {
    DistanceIs(row, best, root);
    DistanceIs(row, worst, root);
    ShareIs(Separation(row, best, root), Separation(row, worst, root));
    hide IsDistance, IsShare, RelativeCloseness, Separation;
  }

  /** The closeness is the one of TOPSIS: values divided by the length of their column, weighted, the
      distances from the best and the worst of every criterion, and the share of the latter in both, every
      stage rounded to thousandths. */
  lemma {:induction false} ClosenessIsTopsis(m: Matrix, weights: seq<real>, benefit: seq<bool>, root: real -> real,
                                             i: nat)
    requires IsSquareRoot(root) && |weights| == |benefit| && Rectangular(m, |weights|) && i < |m|
    ensures IsClosenessOf(Closeness(m, weights, benefit, root, i), m, weights, benefit, i)
  {
    var w := Weighted(Normalized(m, |weights|, root), weights);
    WeightedAre(m, weights, root);
    var best, worst := Extremes(w, benefit, true), Extremes(w, benefit, false);
    IdealIs(w, benefit, true);
    IdealIs(w, benefit, false);
    ShareOfRow(w[i], best, worst, root);
    hide AreWeighted, IsIdeal, IsShareOf, Weighted, Normalized, Extremes, RelativeCloseness, Separation;
  }
}
