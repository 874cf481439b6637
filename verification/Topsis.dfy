/** The seven-stage TOPSIS ranking of scale-down and scale-up candidates. Criteria are columns
    in a fixed order; the square root is a parameter known only by its defining equation. */
module Topsis {
  import opened Sums

  type Matrix = seq<seq<real>>

  // ---------------------------------------------------------------- rounding and roots

  /** Nearest integer, halves away from zero. */
  function RoundHalfAway(x: real): int {
    if x >= 0.0 then (x + 0.5).Floor else -(0.5 - x).Floor
  }

  /** Rounded to three decimals. */
  function Round3(x: real): real {
    RoundHalfAway(x * 1000.0) as real / 1000.0
  }

  ghost predicate IsSquareRoot(root: real -> real) {
    forall x: real :: x >= 0.0 ==> root(x) >= 0.0 && Square(root(x)) == x
  }

  lemma RoundMonotone(x: real, y: real)
    requires x <= y
    ensures Round3(x) <= Round3(y)
  {
    RoundHalfAwayMonotone(x * 1000.0, y * 1000.0);
  }

  lemma RoundHalfAwayMonotone(x: real, y: real)
    requires x <= y
    ensures RoundHalfAway(x) <= RoundHalfAway(y)
  {
  }

  lemma RoundNonNegative(x: real)
    requires x >= 0.0
    ensures Round3(x) >= 0.0
  {
    RoundMonotone(0.0, x);
  }

  lemma RootMonotone(root: real -> real, x: real, y: real)
    requires IsSquareRoot(root) && 0.0 <= x <= y
    ensures 0.0 <= root(x) <= root(y)
  {
    if root(y) < root(x) {
      SquareOrder(root(y), root(x));
    }
  }

  lemma RootUnique(root: real -> real, x: real, r: real)
    requires IsSquareRoot(root) && r >= 0.0 && Square(r) == x
    ensures root(x) == r
  {
    if root(x) < r { SquareOrder(root(x), r); }
    if r < root(x) { SquareOrder(r, root(x)); }
  }

  // ---------------------------------------------------------------- the stages as functions

  ghost predicate Rectangular(m: Matrix, width: nat) {
    forall i :: 0 <= i < |m| ==> |m[i]| == width
  }

  function SumSquares(m: Matrix, k: nat, n: nat): (s: real)
    requires n <= |m| && forall i :: 0 <= i < n ==> k < |m[i]|
    ensures s >= 0.0
  {
    if n == 0 then 0.0 else SumSquares(m, k, n - 1) + Square(m[n - 1][k])
  }

  /** Vector normalization, rounded. */
  function NormalizedEntry(v: real, norm: real): real {
    if norm != 0.0 then Round3(v / norm) else 0.0
  }

  function Normalized(m: Matrix, width: nat, root: real -> real): (r: Matrix)
    requires forall i :: 0 <= i < |m| ==> |m[i]| == width
    ensures |r| == |m| && Rectangular(r, width)
  {
    seq(|m|, i requires 0 <= i < |m| =>
      seq(width, k requires 0 <= k < width => NormalizedEntry(m[i][k], root(SumSquares(m, k, |m|)))))
  }

  function WeightedEntry(v: real, weight: real): real {
    Round3(v * weight)
  }

  function Weighted(m: Matrix, weights: seq<real>): (r: Matrix)
    requires forall i :: 0 <= i < |m| ==> |m[i]| == |weights|
    ensures |r| == |m| && Rectangular(r, |weights|)
  {
    seq(|m|, i requires 0 <= i < |m| =>
      seq(|weights|, k requires 0 <= k < |weights| => WeightedEntry(m[i][k], weights[k])))
  }

  function ColumnMax(m: Matrix, k: nat, n: nat): (x: real)
    requires 0 < n <= |m| && forall i :: 0 <= i < n ==> k < |m[i]|
    ensures forall i :: 0 <= i < n ==> m[i][k] <= x
  {
    if n == 1 then m[0][k]
    else if m[n - 1][k] > ColumnMax(m, k, n - 1) then m[n - 1][k] else ColumnMax(m, k, n - 1)
  }

  function ColumnMin(m: Matrix, k: nat, n: nat): (x: real)
    requires 0 < n <= |m| && forall i :: 0 <= i < n ==> k < |m[i]|
    ensures forall i :: 0 <= i < n ==> x <= m[i][k]
  {
    if n == 1 then m[0][k]
    else if m[n - 1][k] < ColumnMin(m, k, n - 1) then m[n - 1][k] else ColumnMin(m, k, n - 1)
  }

  /** The best value of every column (the worst, when best is false). */
  function Extremes(m: Matrix, benefit: seq<bool>, best: bool): (p: seq<real>)
    requires m != [] && forall i :: 0 <= i < |m| ==> |m[i]| == |benefit|
    ensures |p| == |benefit|
  {
    seq(|benefit|, k requires 0 <= k < |benefit| =>
      if benefit[k] == best then ColumnMax(m, k, |m|) else ColumnMin(m, k, |m|))
  }

  function SquaredDistance(row: seq<real>, p: seq<real>, k: nat): (d: real)
    requires k <= |row| == |p|
    ensures d >= 0.0
  {
    if k == 0 then 0.0
    else SquaredDistance(row, p, k - 1) + Square(row[k - 1] - p[k - 1])
  }

  function Separation(row: seq<real>, p: seq<real>, root: real -> real): real
    requires |row| == |p|
  {
    Round3(root(SquaredDistance(row, p, |row|)))
  }

  function RelativeCloseness(fromIdeal: real, fromNegative: real): real {
    if fromIdeal + fromNegative != 0.0 then Round3(fromNegative / (fromIdeal + fromNegative)) else Round3(0.0)
  }

  /** Stages 2 to 6 for alternative i. */
  function Closeness(m: Matrix, weights: seq<real>, benefit: seq<bool>, root: real -> real, i: nat): real
    requires i < |m| && |weights| == |benefit|
    requires forall r :: 0 <= r < |m| ==> |m[r]| == |weights|
  {
    var w := Weighted(Normalized(m, |weights|, root), weights);
    RelativeCloseness(Separation(w[i], Extremes(w, benefit, true), root),
                      Separation(w[i], Extremes(w, benefit, false), root))
  }

  // ---------------------------------------------------------------- dominance

  /** Row a is at least as good as row b in every column. */
  ghost predicate Dominates(a: seq<real>, b: seq<real>, benefit: seq<bool>) {
    && |a| == |b| == |benefit|
    && forall k :: 0 <= k < |benefit| ==> if benefit[k] then a[k] >= b[k] else a[k] <= b[k]
  }

  lemma NormalizedOrder(x: real, y: real, norm: real)
    requires x <= y && norm >= 0.0
    ensures NormalizedEntry(x, norm) <= NormalizedEntry(y, norm)
  {
    if norm != 0.0 {
      DivMono(x, y, norm);
      RoundMonotone(x / norm, y / norm);
    }
  }

  lemma WeightedOrder(x: real, y: real, w: real)
    requires x <= y && w >= 0.0
    ensures WeightedEntry(x, w) <= WeightedEntry(y, w)
  {
    ProductSign(w, y - x, w * (y - x));
    RoundMonotone(x * w, y * w);
  }

  lemma EntryOrder(m: Matrix, weights: seq<real>, root: real -> real, lo: nat, hi: nat, k: nat)
    requires IsSquareRoot(root) && lo < |m| && hi < |m| && k < |weights|
    requires Rectangular(m, |weights|) && weights[k] >= 0.0 && m[lo][k] <= m[hi][k]
    ensures var w := Weighted(Normalized(m, |weights|, root), weights);
            w[lo][k] <= w[hi][k]
  {
    hide WeightedEntry, NormalizedEntry, SumSquares;
    var n := Normalized(m, |weights|, root);
    NormalizedOrder(m[lo][k], m[hi][k], root(SumSquares(m, k, |m|)));
    WeightedOrder(n[lo][k], n[hi][k], weights[k]);
  }

  lemma StagesKeepDominance(m: Matrix, weights: seq<real>, benefit: seq<bool>, root: real -> real, a: nat, b: nat)
    requires IsSquareRoot(root) && a < |m| && b < |m|
    requires |weights| == |benefit| && Rectangular(m, |weights|)
    requires forall k :: 0 <= k < |weights| ==> weights[k] >= 0.0
    requires Dominates(m[a], m[b], benefit)
    ensures var w := Weighted(Normalized(m, |weights|, root), weights);
            Dominates(w[a], w[b], benefit)
  {
    hide Normalized, Weighted;
    forall k | 0 <= k < |benefit|
      ensures var w := Weighted(Normalized(m, |weights|, root), weights);
              if benefit[k] then w[a][k] >= w[b][k] else w[a][k] <= w[b][k]
    {
      if benefit[k] {
        EntryOrder(m, weights, root, b, a, k);
      } else {
        EntryOrder(m, weights, root, a, b, k);
      }
    }
  }

  /** Closer to p in every column, in the same direction, is closer in squared distance. */
  lemma {:induction false} DistanceOrder(a: seq<real>, b: seq<real>, p: seq<real>, k: nat)
    requires |a| == |b| == |p| && k <= |p|
    requires forall j :: 0 <= j < k ==> (p[j] <= a[j] <= b[j] || b[j] <= a[j] <= p[j])
    ensures SquaredDistance(a, p, k) <= SquaredDistance(b, p, k)
  {
    if k > 0 {
      DistanceOrder(a, b, p, k - 1);
      SquareOrder(a[k - 1] - p[k - 1], b[k - 1] - p[k - 1]);
    }
  }

  lemma SeparationOrder(a: seq<real>, b: seq<real>, p: seq<real>, root: real -> real)
    requires IsSquareRoot(root) && |a| == |b| == |p|
    requires SquaredDistance(a, p, |p|) <= SquaredDistance(b, p, |p|)
    ensures 0.0 <= Separation(a, p, root) <= Separation(b, p, root)
  {
    hide Round3, SquaredDistance;
    var x, y := SquaredDistance(a, p, |p|), SquaredDistance(b, p, |p|);
    RootMonotone(root, x, y);
    RoundNonNegative(root(x));
    RoundMonotone(root(x), root(y));
  }

  lemma QuotientOrder(n1: real, p1: real, n2: real, p2: real)
    requires 0.0 <= n1 <= n2 && 0.0 <= p2 <= p1
    requires n1 + p1 > 0.0 && n2 + p2 > 0.0
    ensures 0.0 <= n1 / (p1 + n1) <= n2 / (p2 + n2)
  {
    var x, y := n1 / (p1 + n1), n2 / (p2 + n2);
    DivMono(0.0, n1, p1 + n1);
    MulMono(n1, p2, p1);
    MulMono(p1, n1, n2);
    CrossMultiply(n1, p1 + n1, n2, p2 + n2);
  }

  lemma CrossMultiply(a: real, b: real, c: real, d: real)
    requires b > 0.0 && d > 0.0 && a * d <= c * b
    ensures a / b <= c / d
  {
    DivMono(a * d, c * b, b);
    DivMono(a * d / b, c, d);
    assert c * b / b == c;
    assert a * d / b / d == a / b;
  }

  lemma {:induction false} ClosenessOrder(p1: real, n1: real, p2: real, n2: real)
    requires 0.0 <= n1 <= n2 && 0.0 <= p2 <= p1
    ensures RelativeCloseness(p1, n1) <= RelativeCloseness(p2, n2)
  {
    hide Round3;
    if p1 + n1 != 0.0 && p2 + n2 != 0.0 {
      QuotientOrder(n1, p1, n2, p2);
      RoundMonotone(n1 / (p1 + n1), n2 / (p2 + n2));
    } else if p2 + n2 != 0.0 {
      DivMono(0.0, n2, p2 + n2);
      RoundMonotone(0.0, n2 / (p2 + n2));
    } else if p1 + n1 != 0.0 {
      assert n1 / (p1 + n1) == 0.0;
    }
  }

  /** A node at least as good in every criterion never gets a lower closeness, through all the
      roundings to three decimals. */
  lemma {:induction false} DominanceRespected(m: Matrix, weights: seq<real>, benefit: seq<bool>, root: real -> real,
                                              a: nat, b: nat)
    requires IsSquareRoot(root) && a < |m| && b < |m|
    requires |weights| == |benefit| && Rectangular(m, |weights|)
    requires forall k :: 0 <= k < |weights| ==> weights[k] >= 0.0
    requires Dominates(m[a], m[b], benefit)
    ensures Closeness(m, weights, benefit, root, a) >= Closeness(m, weights, benefit, root, b)
  {
    hide Round3, Normalized, Weighted, SquaredDistance, Separation, RelativeCloseness, IsSquareRoot;
    var w := Weighted(Normalized(m, |weights|, root), weights);
    StagesKeepDominance(m, weights, benefit, root, a, b);
    var ideal, worst := Extremes(w, benefit, true), Extremes(w, benefit, false);
    DistanceOrder(w[a], w[b], ideal, |benefit|);
    DistanceOrder(w[b], w[a], worst, |benefit|);
    SeparationOrder(w[a], w[b], ideal, root);
    SeparationOrder(w[b], w[a], worst, root);
    ClosenessOrder(Separation(w[b], ideal, root), Separation(w[b], worst, root),
                   Separation(w[a], ideal, root), Separation(w[a], worst, root));
  }

  // ---------------------------------------------------------------- change of unit

  /** The matrix with column c measured in another unit. */
  function Rescaled(m: Matrix, c: nat, factor: real): (r: Matrix)
    ensures |r| == |m| && forall i :: 0 <= i < |m| ==> |r[i]| == |m[i]|
  {
    seq(|m|, i requires 0 <= i < |m| =>
      seq(|m[i]|, k requires 0 <= k < |m[i]| => if k == c then m[i][k] * factor else m[i][k]))
  }

  lemma ScaledStep(before: real, before': real, x: real, f: real, x': real, total: real)
    requires before' == before * Square(f) && x' == x * f && total == before + Square(x)
    ensures before' + Square(x') == total * Square(f)
  {
    SquareOfProduct(x, f);
  }

  lemma {:induction false} RescaledSumSquares(m: Matrix, c: nat, factor: real, k: nat, n: nat)
    requires n <= |m| && forall i :: 0 <= i < |m| ==> k < |m[i]|
    ensures SumSquares(Rescaled(m, c, factor), k, n)
         == if k == c then SumSquares(m, k, n) * Square(factor) else SumSquares(m, k, n)
  {
    hide Square;
    if n > 0 {
      RescaledSumSquares(m, c, factor, k, n - 1);
      if k == c {
        var r := Rescaled(m, c, factor);
        ScaledStep(SumSquares(m, k, n - 1), SumSquares(r, k, n - 1), m[n - 1][k], factor, r[n - 1][k],
          SumSquares(m, k, n));
      }
    }
  }

  lemma RescaledRoot(root: real -> real, s: real, f: real, t: real)
    requires IsSquareRoot(root) && s >= 0.0 && f > 0.0 && t == s * Square(f)
    ensures root(t) == root(s) * f
  {
    hide Square;
    var r := root(s);
    ProductSign(r, f, r * f);
    SquareOfProduct(r, f);
    RootUnique(root, t, r * f);
  }

  lemma RescaledEntry(v: real, norm: real, f: real, v': real, norm': real)
    requires f > 0.0 && v' == v * f && norm' == norm * f
    ensures NormalizedEntry(v', norm') == NormalizedEntry(v, norm)
  {
    hide Round3;
    if norm != 0.0 {
      assert norm' != 0.0 by { assert norm' / f == norm; }
      CancelFactor(v, norm, f);
    }
  }

  lemma CancelFactor(v: real, norm: real, f: real)
    requires f != 0.0 && norm != 0.0 && norm * f != 0.0
    ensures v * f / (norm * f) == v / norm
  {
    var q := v / norm;
    assert q * norm == v;
    assert q * (norm * f) == v * f;
  }

  /** Measuring one criterion in another unit changes no closeness, hence no ranking. */
  lemma {:induction false} UnitDoesNotMatter(m: Matrix, weights: seq<real>, benefit: seq<bool>, root: real -> real,
                                             c: nat, factor: real, i: nat)
    requires IsSquareRoot(root) && factor > 0.0 && i < |m|
    requires |weights| == |benefit| && Rectangular(m, |weights|)
    ensures Closeness(Rescaled(m, c, factor), weights, benefit, root, i) == Closeness(m, weights, benefit, root, i)
  {
    var width := |weights|;
    NormalizedUnitFree(m, width, root, c, factor);
  }

  lemma NormalizedUnitFree(m: Matrix, width: nat, root: real -> real, c: nat, factor: real)
    requires IsSquareRoot(root) && factor > 0.0 && Rectangular(m, width)
    ensures Normalized(Rescaled(m, c, factor), width, root) == Normalized(m, width, root)
  {
    hide NormalizedEntry, SumSquares;
    var s := Rescaled(m, c, factor);
    var x, y := Normalized(s, width, root), Normalized(m, width, root);
    forall r | 0 <= r < |m| ensures x[r] == y[r] {
      forall k | 0 <= k < width ensures x[r][k] == y[r][k] {
        RescaledSumSquares(m, c, factor, k, |m|);
        if k == c {
          RescaledRoot(root, SumSquares(m, k, |m|), factor, SumSquares(s, k, |m|));
          RescaledEntry(m[r][k], root(SumSquares(m, k, |m|)), factor, s[r][k], root(SumSquares(s, k, |m|)));
        }
      }
    }
  }
}
