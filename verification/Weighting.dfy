/** What the weights of the ranking mean, criterion by criterion: a criterion without weight does not count,
    and one with all the weight decides. */
module Weighting {
  import opened Sums
  import opened Topsis
  import opened Ranking
  import opened Ties

  // ---------------------------------------------------------------- one criterion by itself

  /** The values of one criterion. */
  function Column<T>(cs: seq<T>, value: T -> real): (xs: seq<real>)
    ensures |xs| == |cs| && forall i :: 0 <= i < |cs| ==> xs[i] == value(cs[i])
  {
    seq(|cs|, i requires 0 <= i < |cs| => value(cs[i]))
  }

  /** One of them normalised, weighted and rounded. */
  function RoundedValue(xs: seq<real>, weight: real, root: real -> real, i: nat): real
    requires i < |xs|
  {
    WeightedEntry(NormalizedEntry(xs[i], root(Dot(xs, xs, |xs|))), weight)
  }

  /** No two of them are two or more apart. */
  ghost predicate AreNear(xs: seq<real>, weight: real, root: real -> real) {
    forall i, j :: 0 <= i < |xs| && 0 <= j < |xs| ==>
      RoundedValue(xs, weight, root, i) - RoundedValue(xs, weight, root, j) < 2.0
  }

  /** The value of b is strictly better than every other, also after rounding. */
  ghost predicate IsBestIn(xs: seq<real>, weight: real, root: real -> real, isBenefit: bool, b: nat)
    requires b < |xs|
  {
    forall a :: 0 <= a < |xs| && a != b ==>
      && (if isBenefit then xs[b] > xs[a] else xs[b] < xs[a])
      && RoundedValue(xs, weight, root, a) != RoundedValue(xs, weight, root, b)
  }

  lemma {:induction false} ColumnSquares(m: Matrix, xs: seq<real>, k: nat, n: nat)
    requires n <= |m| == |xs| && forall i :: 0 <= i < |m| ==> k < |m[i]| && m[i][k] == xs[i]
    ensures SumSquares(m, k, n) == Dot(xs, xs, n)
  {
    if n > 0 { ColumnSquares(m, xs, k, n - 1); }
  }

  ghost predicate IsColumn(m: Matrix, k: nat, xs: seq<real>) {
    |m| == |xs| && forall i :: 0 <= i < |m| ==> k < |m[i]| && m[i][k] == xs[i]
  }

  lemma RoundedEntry(m: Matrix, weights: seq<real>, root: real -> real, k: nat, xs: seq<real>, i: nat)
    requires Rectangular(m, |weights|) && k < |weights| && IsColumn(m, k, xs) && i < |m|
    ensures Weighted(Normalized(m, |weights|, root), weights)[i][k] == RoundedValue(xs, weights[k], root, i)
  {
    ColumnSquares(m, xs, k, |m|);
    assert m[i][k] == xs[i];
    hide WeightedEntry, NormalizedEntry, SumSquares, Dot, IsColumn;
  }

  lemma {:induction false} DotNonNegative(xs: seq<real>, n: nat)
    requires n <= |xs|
    ensures Dot(xs, xs, n) >= 0.0
  {
    if n > 0 {
      DotNonNegative(xs, n - 1);
      SquareNonNegative(xs[n - 1]);
    }
  }

  lemma {:induction false} SquareAtMostDot(xs: seq<real>, i: nat, n: nat)
    requires i < n <= |xs|
    ensures Square(xs[i]) <= Dot(xs, xs, n)
  {
    DotNonNegative(xs, n - 1);
    SquareNonNegative(xs[n - 1]);
    if i < n - 1 { SquareAtMostDot(xs, i, n - 1); }
  }

  lemma {:induction false} TwoSquaresAtMostDot(xs: seq<real>, i: nat, j: nat, n: nat)
    requires i < n <= |xs| && j < n && i != j
    ensures Square(xs[i]) + Square(xs[j]) <= Dot(xs, xs, n)
  {
    SquareNonNegative(xs[n - 1]);
    if i == n - 1 {
      SquareAtMostDot(xs, j, n - 1);
    } else if j == n - 1 {
      SquareAtMostDot(xs, i, n - 1);
    } else {
      TwoSquaresAtMostDot(xs, i, j, n - 1);
    }
  }

  lemma SquareOfQuotient(x: real, norm: real)
    requires norm > 0.0
    ensures Square(x / norm) * Square(norm) == Square(x)
  {
    SquareOfProduct(x / norm, norm);
    assert x / norm * norm == x;
  }

  lemma SharesOfOne(p: real, q: real, n: real, x: real, y: real)
    requires n > 0.0 && p * n == x && q * n == y && x + y <= n
    ensures p + q <= 1.0
  {
    if p + q > 1.0 { ProductSign(p + q - 1.0, n, (p + q - 1.0) * n); }
  }

  /** Two parts of a whole of length one are at most its diagonal apart. */
  lemma PartsAreClose(a: real, b: real)
    requires Square(a) + Square(b) <= 1.0
    ensures a - b <= 1.42
  {
    assert Square(a - b) + Square(a + b) == 2.0 * (Square(a) + Square(b));
    SquareNonNegative(a + b);
    if a - b > 1.42 { SquareOrder(1.42, a - b); }
  }

  lemma RoundsNear(x: real)
    ensures -0.0005 <= Round3(x) - x <= 0.0005
  {
  }

  lemma SharesAreClose(xs: seq<real>, norm: real, i: nat, j: nat)
    requires i < |xs| && j < |xs| && norm >= 0.0 && Square(norm) == Dot(xs, xs, |xs|)
    ensures NormalizedEntry(xs[i], norm) - NormalizedEntry(xs[j], norm) <= 1.43
  {
    if norm != 0.0 && i != j {
      TwoSquaresAtMostDot(xs, i, j, |xs|);
      SquareOfQuotient(xs[i], norm);
      SquareOfQuotient(xs[j], norm);
      ProductSign(norm, norm, Square(norm));
      hide Square, Dot, Round3;
      SharesOfOne(Square(xs[i] / norm), Square(xs[j] / norm), Square(norm), Square(xs[i]), Square(xs[j]));
      PartsAreClose(xs[i] / norm, xs[j] / norm);
      RoundsNear(xs[i] / norm);
      RoundsNear(xs[j] / norm);
    }
  }

  lemma PartOfWeight(d: real, weight: real)
    requires d <= 1.43 && 0.0 <= weight <= 1.0
    ensures weight * d <= 1.43
  {
    MulMono(weight, d, 1.43);
    MulMono(1.43, weight, 1.0);
  }

  lemma WeightedAreClose(v: real, u: real, weight: real)
    requires v - u <= 1.43 && 0.0 <= weight <= 1.0
    ensures WeightedEntry(v, weight) - WeightedEntry(u, weight) < 2.0
  {
    var p, q := v * weight, u * weight;
    PartOfWeight(v - u, weight);
    assert p - q == weight * (v - u);
    RoundsNear(p);
    RoundsNear(q);
    hide Round3;
  }

  /** With a weight of at most one they always are. */
  lemma {:induction false} SmallWeightsAreNear(xs: seq<real>, weight: real, root: real -> real)
    requires IsSquareRoot(root) && 0.0 <= weight <= 1.0
    ensures AreNear(xs, weight, root)
  {
    var norm := root(Dot(xs, xs, |xs|));
    DotNonNegative(xs, |xs|);
    assert norm >= 0.0 && Square(norm) == Dot(xs, xs, |xs|);
    hide NormalizedEntry, WeightedEntry, Dot, IsSquareRoot, Square;
    forall i, j | 0 <= i < |xs| && 0 <= j < |xs|
      ensures RoundedValue(xs, weight, root, i) - RoundedValue(xs, weight, root, j) < 2.0
    {
      SharesAreClose(xs, norm, i, j);
      WeightedAreClose(NormalizedEntry(xs[i], norm), NormalizedEntry(xs[j], norm), weight);
    }
  }

  // ---------------------------------------------------------------- without weight

  /** The matrices differ in column k alone. */
  ghost predicate DifferIn(m: Matrix, other: Matrix, width: nat, k: nat) {
    && Rectangular(m, width) && Rectangular(other, width) && |m| == |other|
    && forall i, j :: 0 <= i < |m| && 0 <= j < width && j != k ==> m[i][j] == other[i][j]
  }

  lemma {:induction false} SameColumnSquares(m: Matrix, other: Matrix, j: nat, n: nat)
    requires n <= |m| == |other| && forall i :: 0 <= i < n ==> j < |m[i]| && j < |other[i]| && m[i][j] == other[i][j]
    ensures SumSquares(m, j, n) == SumSquares(other, j, n)
  {
    if n > 0 { SameColumnSquares(m, other, j, n - 1); }
  }

  lemma NoWeightIsZero(v: real)
    ensures WeightedEntry(v, 0.0) == 0.0
  {
    assert v * 0.0 == 0.0;
  }

  lemma WeightlessColumn(m: Matrix, other: Matrix, weights: seq<real>, benefit: seq<bool>, root: real -> real, k: nat,
                         i: nat)
    requires DifferIn(m, other, |weights|, k) && |weights| == |benefit| && i < |m|
    requires k < |weights| && weights[k] == 0.0
    ensures Closeness(m, weights, benefit, root, i) == Closeness(other, weights, benefit, root, i)
  {
    var x, y := Weighted(Normalized(m, |weights|, root), weights),
      Weighted(Normalized(other, |weights|, root), weights);
    forall r, j | 0 <= r < |m| && 0 <= j < |weights| ensures x[r][j] == y[r][j] {
      SameEntry(m, other, weights, root, k, r, j);
    }
    assert forall r :: 0 <= r < |m| ==> x[r] == y[r];
    assert x == y;
    hide Weighted, Normalized, Separation, RelativeCloseness, Extremes;
  }

  lemma SameEntry(m: Matrix, other: Matrix, weights: seq<real>, root: real -> real, k: nat, r: nat, j: nat)
    requires DifferIn(m, other, |weights|, k) && r < |m| && j < |weights|
    requires k < |weights| && weights[k] == 0.0
    ensures Weighted(Normalized(m, |weights|, root), weights)[r][j]
         == Weighted(Normalized(other, |weights|, root), weights)[r][j]
  {
    hide WeightedEntry, NormalizedEntry;
    if j == k {
      NoWeightIsZero(Normalized(m, |weights|, root)[r][j]);
      NoWeightIsZero(Normalized(other, |weights|, root)[r][j]);
    } else {
      SameColumnSquares(m, other, j, |m|);
    }
  }

  lemma WeightlessCriterion(cs: seq<Criteria>, others: seq<Criteria>, w: Weights, root: real -> real, k: nat)
    requires |cs| == |others| && k < 7 && WeightRow(w)[k] == 0.0
    requires forall i, j :: 0 <= i < |cs| && 0 <= j < 7 && j != k ==>
               EvaluationRow(cs[i])[j] == EvaluationRow(others[i])[j]
    ensures forall i :: 0 <= i < |cs| ==> Scored(cs, w, root)[i].closeness == Scored(others, w, root)[i].closeness
  {
    hide EvaluationRow, WeightRow, Closeness;
    forall i | 0 <= i < |cs|
      ensures Scored(cs, w, root)[i].closeness == Scored(others, w, root)[i].closeness
    {
      WeightlessColumn(EvaluationMatrix(cs), EvaluationMatrix(others), WeightRow(w), BENEFIT_SCALE_DOWN, root, k, i);
    }
  }

  /** A criterion whose weight is zero may take any values: no closeness changes. */
  lemma {:induction false} PowerCycleIgnored(cs: seq<Criteria>, others: seq<Criteria>, w: Weights, root: real -> real)
    requires |cs| == |others| && w.powerCycle == 0.0
    requires forall i :: 0 <= i < |cs| ==> others[i] == cs[i].(powerCycle := others[i].powerCycle)
    ensures forall i :: 0 <= i < |cs| ==> Scored(others, w, root)[i].closeness == Scored(cs, w, root)[i].closeness
  {
    hide Scored;
    WeightlessCriterion(cs, others, w, root, 0);
  }

  lemma {:induction false} EnergyProfileIgnored(cs: seq<Criteria>, others: seq<Criteria>, w: Weights,
                                                root: real -> real)
    requires |cs| == |others| && w.energyProfile == 0.0
    requires forall i :: 0 <= i < |cs| ==> others[i] == cs[i].(energyProfile := others[i].energyProfile)
    ensures forall i :: 0 <= i < |cs| ==> Scored(others, w, root)[i].closeness == Scored(cs, w, root)[i].closeness
  {
    hide Scored;
    WeightlessCriterion(cs, others, w, root, 1);
  }

  lemma {:induction false} NodeAffinityIgnored(cs: seq<Criteria>, others: seq<Criteria>, w: Weights, root: real -> real)
    requires |cs| == |others| && w.preferredNodeAffinity == 0.0
    requires forall i :: 0 <= i < |cs| ==> others[i] == cs[i].(preferredNodeAffinity := others[i].preferredNodeAffinity)
    ensures forall i :: 0 <= i < |cs| ==> Scored(others, w, root)[i].closeness == Scored(cs, w, root)[i].closeness
  {
    hide Scored;
    WeightlessCriterion(cs, others, w, root, 2);
  }

  lemma {:induction false} PodAffinityIgnored(cs: seq<Criteria>, others: seq<Criteria>, w: Weights, root: real -> real)
    requires |cs| == |others| && w.preferredInterPodAffinity == 0.0
    requires forall i :: 0 <= i < |cs| ==>
               others[i] == cs[i].(preferredInterPodAffinity := others[i].preferredInterPodAffinity)
    ensures forall i :: 0 <= i < |cs| ==> Scored(others, w, root)[i].closeness == Scored(cs, w, root)[i].closeness
  {
    hide Scored;
    WeightlessCriterion(cs, others, w, root, 3);
  }

  lemma {:induction false} PodAntiAffinityIgnored(cs: seq<Criteria>, others: seq<Criteria>, w: Weights,
                                                  root: real -> real)
    requires |cs| == |others| && w.preferredInterPodAntiAffinity == 0.0
    requires forall i :: 0 <= i < |cs| ==>
               others[i] == cs[i].(preferredInterPodAntiAffinity := others[i].preferredInterPodAntiAffinity)
    ensures forall i :: 0 <= i < |cs| ==> Scored(others, w, root)[i].closeness == Scored(cs, w, root)[i].closeness
  {
    hide Scored;
    WeightlessCriterion(cs, others, w, root, 4);
  }

  lemma {:induction false} RunningPodsIgnored(cs: seq<Criteria>, others: seq<Criteria>, w: Weights, root: real -> real)
    requires |cs| == |others| && w.numberOfRunningPods == 0.0
    requires forall i :: 0 <= i < |cs| ==> others[i] == cs[i].(numberOfRunningPods := others[i].numberOfRunningPods)
    ensures forall i :: 0 <= i < |cs| ==> Scored(others, w, root)[i].closeness == Scored(cs, w, root)[i].closeness
  {
    hide Scored;
    WeightlessCriterion(cs, others, w, root, 5);
  }

  lemma {:induction false} TopologySpreadIgnored(cs: seq<Criteria>, others: seq<Criteria>, w: Weights,
                                                 root: real -> real)
    requires |cs| == |others| && w.topologySpread == 0.0
    requires forall i :: 0 <= i < |cs| ==> others[i] == cs[i].(topologySpreadScore := others[i].topologySpreadScore)
    ensures forall i :: 0 <= i < |cs| ==> Scored(others, w, root)[i].closeness == Scored(cs, w, root)[i].closeness
  {
    hide Scored;
    WeightlessCriterion(cs, others, w, root, 6);
  }

  /** The same for a scale-up. */
  lemma {:induction false} PowerCycleIgnoredScaleUp(cs: seq<CriteriaScaleUp>, others: seq<CriteriaScaleUp>,
                                                    w: WeightsScaleUp, root: real -> real)
    requires |cs| == |others| && w.powerCycle == 0.0
    requires forall i :: 0 <= i < |cs| ==> others[i] == cs[i].(powerCycle := others[i].powerCycle)
    ensures forall i :: 0 <= i < |cs| ==>
              ScoredScaleUp(others, w, root)[i].closeness == ScoredScaleUp(cs, w, root)[i].closeness
  {
    hide Closeness;
    forall i | 0 <= i < |cs|
      ensures ScoredScaleUp(others, w, root)[i].closeness == ScoredScaleUp(cs, w, root)[i].closeness
    {
      WeightlessColumn(EvaluationMatrixScaleUp(cs), EvaluationMatrixScaleUp(others), [w.powerCycle, w.energyProfile],
                       BENEFIT_SCALE_UP, root, 0, i);
    }
  }

  lemma {:induction false} EnergyProfileIgnoredScaleUp(cs: seq<CriteriaScaleUp>, others: seq<CriteriaScaleUp>,
                                                       w: WeightsScaleUp, root: real -> real)
    requires |cs| == |others| && w.energyProfile == 0.0
    requires forall i :: 0 <= i < |cs| ==> others[i] == cs[i].(energyProfile := others[i].energyProfile)
    ensures forall i :: 0 <= i < |cs| ==>
              ScoredScaleUp(others, w, root)[i].closeness == ScoredScaleUp(cs, w, root)[i].closeness
  {
    hide Closeness;
    forall i | 0 <= i < |cs|
      ensures ScoredScaleUp(others, w, root)[i].closeness == ScoredScaleUp(cs, w, root)[i].closeness
    {
      WeightlessColumn(EvaluationMatrixScaleUp(cs), EvaluationMatrixScaleUp(others), [w.powerCycle, w.energyProfile],
                       BENEFIT_SCALE_UP, root, 1, i);
    }
  }

  // ---------------------------------------------------------------- all the weight

  ghost predicate OnlyWeight(weights: seq<real>, k: nat) {
    k < |weights| && weights[k] > 0.0 && forall j :: 0 <= j < |weights| && j != k ==> weights[j] == 0.0
  }

  /** Rows that are zero but for column k, in which b is the best. */
  ghost predicate IsSingle(rows: Matrix, benefit: seq<bool>, k: nat, b: nat) {
    && Rectangular(rows, |benefit|) && k < |benefit| && b < |rows|
    && (forall i, j :: 0 <= i < |rows| && 0 <= j < |benefit| && j != k ==> rows[i][j] == 0.0)
    && (forall a :: 0 <= a < |rows| && a != b ==>
          if benefit[k] then rows[b][k] > rows[a][k] else rows[b][k] < rows[a][k])
    && (forall i, j :: 0 <= i < |rows| && 0 <= j < |rows| ==> rows[i][k] - rows[j][k] < 2.0)
  }

  lemma SingleIdeal(rows: Matrix, benefit: seq<bool>, k: nat, b: nat)
    requires IsSingle(rows, benefit, k, b)
    ensures Extremes(rows, benefit, true) == rows[b]
    ensures forall j :: 0 <= j < |benefit| && j != k ==> Extremes(rows, benefit, false)[j] == 0.0
    ensures exists c :: 0 <= c < |rows| && Extremes(rows, benefit, false)[k] == rows[c][k]
  {
    forall j | 0 <= j < |benefit|
      ensures Extremes(rows, benefit, true)[j] == rows[b][j]
      ensures j != k ==> Extremes(rows, benefit, false)[j] == 0.0
    {
      var hi, lo := ColumnEntries(rows, j, |rows|);
    }
    var hi, lo := ColumnEntries(rows, k, |rows|);
  }

  lemma {:induction false} SingleDistance(a: seq<real>, p: seq<real>, k: nat, n: nat)
    requires n <= |a| == |p| && k < |a| && forall j :: 0 <= j < |a| && j != k ==> a[j] == p[j]
    ensures SquaredDistance(a, p, n) == if k < n then Square(a[k] - p[k]) else 0.0
  {
    if n > 0 { SingleDistance(a, p, k, n - 1); }
  }

  function Abs(x: real): real {
    if x >= 0.0 then x else -x
  }

  lemma SingleSeparation(a: seq<real>, p: seq<real>, k: nat, root: real -> real)
    requires IsSquareRoot(root) && |a| == |p| && k < |a| && forall j :: 0 <= j < |a| && j != k ==> a[j] == p[j]
    requires IsRounded(a[k]) && IsRounded(p[k])
    ensures Separation(a, p, root) == Abs(a[k] - p[k])
  {
    var d := a[k] - p[k];
    SingleDistance(a, p, k, |a|);
    SquareOfNegation(d);
    RootUnique(root, Square(d), Abs(d));
    DifferenceIsRounded(a[k], p[k]);
    hide SquaredDistance, IsSquareRoot;
  }

  lemma DifferenceIsRounded(x: real, y: real)
    requires IsRounded(x) && IsRounded(y)
    ensures Round3(Abs(x - y)) == Abs(x - y)
  {
    var i :| x == Thousandths(i);
    var j :| y == Thousandths(j);
    var d := if i >= j then i - j else j - i;
    assert Abs(x - y) == Thousandths(d);
    assert RoundHalfAway(Thousandths(d) * 1000.0) == d;
  }

  /** The best row in the only column that counts is the closest. */
  lemma SingleBestWins(rows: Matrix, benefit: seq<bool>, root: real -> real, k: nat, a: nat, b: nat)
    requires IsSingle(rows, benefit, k, b) && RowsAreRounded(rows) && IsSquareRoot(root) && a < |rows| && a != b
    ensures RowCloseness(rows, benefit, root, a) < RowCloseness(rows, benefit, root, b)
  {
    SingleIdeal(rows, benefit, k, b);
    var ideal, worst := Extremes(rows, benefit, true), Extremes(rows, benefit, false);
    var c :| 0 <= c < |rows| && worst[k] == rows[c][k];
    assert IsRounded(rows[a][k]) && IsRounded(rows[b][k]) && IsRounded(rows[c][k]);
    SingleSeparation(rows[a], ideal, k, root);
    SingleSeparation(rows[a], worst, k, root);
    WorstBounds(rows, benefit, k, a);
    assert rows[a] != rows[b] by { assert rows[a][k] != rows[b][k]; }
    hide Extremes, Separation, RowCloseness, IsSquareRoot, RowsAreRounded, IsRounded;
    assert IsExtremePair(rows, benefit, root, a, b);
    ExtremeRowsDiffer(rows, benefit, root, a, b);
  }

  lemma WorstBounds(rows: Matrix, benefit: seq<bool>, k: nat, a: nat)
    requires Rectangular(rows, |benefit|) && k < |benefit| && a < |rows|
    ensures if benefit[k] then Extremes(rows, benefit, false)[k] <= rows[a][k]
            else rows[a][k] <= Extremes(rows, benefit, false)[k]
  {
  }

  lemma OnlyWeightRows(m: Matrix, weights: seq<real>, benefit: seq<bool>, root: real -> real, k: nat, xs: seq<real>,
                       b: nat)
    requires Rectangular(m, |weights|) && |weights| == |benefit| && OnlyWeight(weights, k) && IsColumn(m, k, xs)
    requires IsSquareRoot(root) && b < |xs|
    requires IsBestIn(xs, weights[k], root, benefit[k], b) && AreNear(xs, weights[k], root)
    ensures IsSingle(Weighted(Normalized(m, |weights|, root), weights), benefit, k, b)
  {
    var rows := Weighted(Normalized(m, |weights|, root), weights);
    forall i, j | 0 <= i < |rows| && 0 <= j < |benefit| && j != k ensures rows[i][j] == 0.0 {
      NoWeightIsZero(Normalized(m, |weights|, root)[i][j]);
    }
    forall i | 0 <= i < |rows| ensures rows[i][k] == RoundedValue(xs, weights[k], root, i) {
      RoundedEntry(m, weights, root, k, xs, i);
    }
    forall a | 0 <= a < |rows| && a != b
      ensures if benefit[k] then rows[b][k] > rows[a][k] else rows[b][k] < rows[a][k]
    {
      OrderKept(xs, weights[k], root, if benefit[k] then a else b, if benefit[k] then b else a);
    }
    hide Weighted, Normalized, RoundedValue, IsSquareRoot, IsColumn;
  }

  lemma RootNonNegative(root: real -> real, x: real)
    requires IsSquareRoot(root) && x >= 0.0
    ensures root(x) >= 0.0
  {
  }

  lemma OrderKept(xs: seq<real>, weight: real, root: real -> real, lo: nat, hi: nat)
    requires IsSquareRoot(root) && lo < |xs| && hi < |xs| && xs[lo] <= xs[hi] && weight >= 0.0
    ensures RoundedValue(xs, weight, root, lo) <= RoundedValue(xs, weight, root, hi)
  {
    hide Dot, NormalizedEntry, WeightedEntry, IsSquareRoot;
    DotNonNegative(xs, |xs|);
    var norm := root(Dot(xs, xs, |xs|));
    RootNonNegative(root, Dot(xs, xs, |xs|));
    NormalizedOrder(xs[lo], xs[hi], norm);
    WeightedOrder(NormalizedEntry(xs[lo], norm), NormalizedEntry(xs[hi], norm), weight);
  }

  lemma OnlyWeightWins(m: Matrix, weights: seq<real>, benefit: seq<bool>, root: real -> real, k: nat, xs: seq<real>,
                       b: nat, a: nat)
    requires Rectangular(m, |weights|) && |weights| == |benefit| && OnlyWeight(weights, k) && IsColumn(m, k, xs)
    requires IsSquareRoot(root) && b < |xs| && a < |xs| && a != b
    requires IsBestIn(xs, weights[k], root, benefit[k], b) && AreNear(xs, weights[k], root)
    ensures Closeness(m, weights, benefit, root, a) < Closeness(m, weights, benefit, root, b)
  {
    OnlyWeightRows(m, weights, benefit, root, k, xs, b);
    WeightedIsRounded(Normalized(m, |weights|, root), weights);
    hide Weighted, Normalized, IsSingle, RowsAreRounded, IsSquareRoot, IsBestIn, AreNear, Separation,
         RelativeCloseness, Extremes;
    SingleBestWins(Weighted(Normalized(m, |weights|, root), weights), benefit, root, k, a, b);
  }

  lemma StrictlyBestIsFirst(s: seq<RankedNode>, ranking: seq<RankedNode>, b: nat)
    requires IsStableRanking(ranking, s) && b < |s|
    requires forall a :: 0 <= a < |s| && a != b ==> s[a].closeness < s[b].closeness
    ensures ranking != [] && ranking[0] == s[b]
  {
    assert IsFirstBest(s, b);
    hide IsStableRanking, IsFirstBest;
    HeadIsFirstBest(ranking, s, b);
  }

  lemma OnlyCriterionDecides(cs: seq<Criteria>, w: Weights, root: real -> real, ranking: seq<RankedNode>, k: nat,
                             xs: seq<real>, b: nat)
    requires k < 7 && OnlyWeight(WeightRow(w), k) && IsColumn(EvaluationMatrix(cs), k, xs)
    requires IsSquareRoot(root) && b < |cs| && IsStableRanking(ranking, Scored(cs, w, root))
    requires IsBestIn(xs, WeightRow(w)[k], root, BENEFIT_SCALE_DOWN[k], b) && AreNear(xs, WeightRow(w)[k], root)
    ensures ranking != [] && ranking[0].node == cs[b].node
  {
    var s := Scored(cs, w, root);
    assert |xs| == |cs|;
    hide OnlyWeight, EvaluationRow, WeightRow, IsColumn, IsBestIn, AreNear, IsSquareRoot, IsStableRanking, Closeness;
    forall a | 0 <= a < |s| && a != b ensures s[a].closeness < s[b].closeness {
      OnlyWeightWins(EvaluationMatrix(cs), WeightRow(w), BENEFIT_SCALE_DOWN, root, k, xs, b, a);
    }
    StrictlyBestIsFirst(s, ranking, b);
  }

  /** With all the weight on one criterion the candidate that is strictly better in it, also after rounding,
      is ranked first. */
  lemma {:induction false} PowerCycleDecides(cs: seq<Criteria>, w: Weights, root: real -> real,
                                         ranking: seq<RankedNode>, b: nat)
    requires IsSquareRoot(root) && b < |cs| && IsStableRanking(ranking, Scored(cs, w, root))
    requires w == Weights(w.powerCycle, 0.0, 0.0, 0.0, 0.0, 0.0, 0.0) && w.powerCycle > 0.0
    requires var xs := Column(cs, (c: Criteria) => c.powerCycle as real);
             IsBestIn(xs, w.powerCycle, root, false, b) && AreNear(xs, w.powerCycle, root)
    ensures ranking != [] && ranking[0].node == cs[b].node
  {
    hide IsBestIn, AreNear, IsStableRanking, Scored, IsSquareRoot;
    OnlyCriterionDecides(cs, w, root, ranking, 0, Column(cs, (c: Criteria) => c.powerCycle as real), b);
  }

  lemma {:induction false} EnergyProfileDecides(cs: seq<Criteria>, w: Weights, root: real -> real,
                                         ranking: seq<RankedNode>, b: nat)
    requires IsSquareRoot(root) && b < |cs| && IsStableRanking(ranking, Scored(cs, w, root))
    requires w == Weights(0.0, w.energyProfile, 0.0, 0.0, 0.0, 0.0, 0.0) && w.energyProfile > 0.0
    requires var xs := Column(cs, (c: Criteria) => c.energyProfile);
             IsBestIn(xs, w.energyProfile, root, true, b) && AreNear(xs, w.energyProfile, root)
    ensures ranking != [] && ranking[0].node == cs[b].node
  {
    hide IsBestIn, AreNear, IsStableRanking, Scored, IsSquareRoot;
    OnlyCriterionDecides(cs, w, root, ranking, 1, Column(cs, (c: Criteria) => c.energyProfile), b);
  }

  lemma {:induction false} NodeAffinityDecides(cs: seq<Criteria>, w: Weights, root: real -> real,
                                         ranking: seq<RankedNode>, b: nat)
    requires IsSquareRoot(root) && b < |cs| && IsStableRanking(ranking, Scored(cs, w, root))
    requires w == Weights(0.0, 0.0, w.preferredNodeAffinity, 0.0, 0.0, 0.0, 0.0) && w.preferredNodeAffinity > 0.0
    requires var xs := Column(cs, (c: Criteria) => c.preferredNodeAffinity as real);
             IsBestIn(xs, w.preferredNodeAffinity, root, false, b) && AreNear(xs, w.preferredNodeAffinity, root)
    ensures ranking != [] && ranking[0].node == cs[b].node
  {
    hide IsBestIn, AreNear, IsStableRanking, Scored, IsSquareRoot;
    OnlyCriterionDecides(cs, w, root, ranking, 2, Column(cs, (c: Criteria) => c.preferredNodeAffinity as real), b);
  }

  lemma {:induction false} PodAffinityDecides(cs: seq<Criteria>, w: Weights, root: real -> real,
                                         ranking: seq<RankedNode>, b: nat)
    requires IsSquareRoot(root) && b < |cs| && IsStableRanking(ranking, Scored(cs, w, root))
    requires w == Weights(0.0, 0.0, 0.0, w.preferredInterPodAffinity, 0.0, 0.0, 0.0)
             && w.preferredInterPodAffinity > 0.0
    requires var xs := Column(cs, (c: Criteria) => c.preferredInterPodAffinity as real);
             IsBestIn(xs, w.preferredInterPodAffinity, root, false, b) && AreNear(xs, w.preferredInterPodAffinity, root)
    ensures ranking != [] && ranking[0].node == cs[b].node
  {
    hide IsBestIn, AreNear, IsStableRanking, Scored, IsSquareRoot;
    OnlyCriterionDecides(cs, w, root, ranking, 3, Column(cs, (c: Criteria) => c.preferredInterPodAffinity as real), b);
  }

  lemma {:induction false} PodAntiAffinityDecides(cs: seq<Criteria>, w: Weights, root: real -> real,
                                         ranking: seq<RankedNode>, b: nat)
    requires IsSquareRoot(root) && b < |cs| && IsStableRanking(ranking, Scored(cs, w, root))
    requires w == Weights(0.0, 0.0, 0.0, 0.0, w.preferredInterPodAntiAffinity, 0.0, 0.0)
             && w.preferredInterPodAntiAffinity > 0.0
    requires var xs := Column(cs, (c: Criteria) => c.preferredInterPodAntiAffinity as real);
             IsBestIn(xs, w.preferredInterPodAntiAffinity, root, false, b)
               && AreNear(xs, w.preferredInterPodAntiAffinity, root)
    ensures ranking != [] && ranking[0].node == cs[b].node
  {
    hide IsBestIn, AreNear, IsStableRanking, Scored, IsSquareRoot;
    OnlyCriterionDecides(cs, w, root, ranking, 4, Column(cs,
      (c: Criteria) => c.preferredInterPodAntiAffinity as real), b);
  }

  lemma {:induction false} RunningPodsDecides(cs: seq<Criteria>, w: Weights, root: real -> real,
                                         ranking: seq<RankedNode>, b: nat)
    requires IsSquareRoot(root) && b < |cs| && IsStableRanking(ranking, Scored(cs, w, root))
    requires w == Weights(0.0, 0.0, 0.0, 0.0, 0.0, w.numberOfRunningPods, 0.0) && w.numberOfRunningPods > 0.0
    requires var xs := Column(cs, (c: Criteria) => c.numberOfRunningPods as real);
             IsBestIn(xs, w.numberOfRunningPods, root, false, b) && AreNear(xs, w.numberOfRunningPods, root)
    ensures ranking != [] && ranking[0].node == cs[b].node
  {
    hide IsBestIn, AreNear, IsStableRanking, Scored, IsSquareRoot;
    OnlyCriterionDecides(cs, w, root, ranking, 5, Column(cs, (c: Criteria) => c.numberOfRunningPods as real), b);
  }

  lemma {:induction false} TopologySpreadDecides(cs: seq<Criteria>, w: Weights, root: real -> real,
                                         ranking: seq<RankedNode>, b: nat)
    requires IsSquareRoot(root) && b < |cs| && IsStableRanking(ranking, Scored(cs, w, root))
    requires w == Weights(0.0, 0.0, 0.0, 0.0, 0.0, 0.0, w.topologySpread) && w.topologySpread > 0.0
    requires var xs := Column(cs, (c: Criteria) => c.topologySpreadScore as real);
             IsBestIn(xs, w.topologySpread, root, false, b) && AreNear(xs, w.topologySpread, root)
    ensures ranking != [] && ranking[0].node == cs[b].node
  {
    hide IsBestIn, AreNear, IsStableRanking, Scored, IsSquareRoot;
    OnlyCriterionDecides(cs, w, root, ranking, 6, Column(cs, (c: Criteria) => c.topologySpreadScore as real), b);
  }

  /** The same for a scale-up. */
  lemma {:induction false} PowerCycleDecidesScaleUp(cs: seq<CriteriaScaleUp>, w: WeightsScaleUp, root: real -> real,
                                            ranking: seq<RankedNode>, b: nat)
    requires IsSquareRoot(root) && b < |cs| && IsStableRanking(ranking, ScoredScaleUp(cs, w, root))
    requires w == WeightsScaleUp(w.powerCycle, 0.0) && w.powerCycle > 0.0
    requires var xs := Column(cs, (c: CriteriaScaleUp) => c.powerCycle as real);
             IsBestIn(xs, w.powerCycle, root, false, b) && AreNear(xs, w.powerCycle, root)
    ensures ranking != [] && ranking[0].node == cs[b].node
  {
    var s, xs := ScoredScaleUp(cs, w, root), Column(cs, (c: CriteriaScaleUp) => c.powerCycle as real);
    hide IsBestIn, AreNear, IsSquareRoot, IsStableRanking, Closeness;
    forall a | 0 <= a < |s| && a != b ensures s[a].closeness < s[b].closeness {
      OnlyWeightWins(EvaluationMatrixScaleUp(cs), [w.powerCycle, w.energyProfile], BENEFIT_SCALE_UP, root, 0, xs, b, a);
    }
    StrictlyBestIsFirst(s, ranking, b);
  }

  lemma {:induction false} EnergyProfileDecidesScaleUp(cs: seq<CriteriaScaleUp>, w: WeightsScaleUp, root: real -> real,
                                            ranking: seq<RankedNode>, b: nat)
    requires IsSquareRoot(root) && b < |cs| && IsStableRanking(ranking, ScoredScaleUp(cs, w, root))
    requires w == WeightsScaleUp(0.0, w.energyProfile) && w.energyProfile > 0.0
    requires var xs := Column(cs, (c: CriteriaScaleUp) => c.energyProfile);
             IsBestIn(xs, w.energyProfile, root, false, b) && AreNear(xs, w.energyProfile, root)
    ensures ranking != [] && ranking[0].node == cs[b].node
  {
    var s, xs := ScoredScaleUp(cs, w, root), Column(cs, (c: CriteriaScaleUp) => c.energyProfile);
    hide IsBestIn, AreNear, IsSquareRoot, IsStableRanking, Closeness;
    forall a | 0 <= a < |s| && a != b ensures s[a].closeness < s[b].closeness {
      OnlyWeightWins(EvaluationMatrixScaleUp(cs), [w.powerCycle, w.energyProfile], BENEFIT_SCALE_UP, root, 1, xs, b, a);
    }
    StrictlyBestIsFirst(s, ranking, b);
  }
}
