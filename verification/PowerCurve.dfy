/** The power-utilization curve of a node and its Weighted Average Power. */
module PowerCurve {
  import opened Sums
  import opened Isotonic

  // ---------------------------------------------------------------- utilization levels

  /** floor(percent), with a tolerance for float noise, clipped to 0..100. */
  function ToLevel(percent: real): (l: int)
    ensures 0 <= l <= 100
  {
    var f := (percent + 0.000000001).Floor;
    if f < 0 then 0 else if f > 100 then 100 else f
  }

  /** Utilization the demand per active node would induce on a node of this capacity. */
  function InducedUtilization(demand: seq<real>, capacity: real): (u: seq<real>)
    requires capacity > 0.0
    ensures |u| == |demand|
  {
    seq(|demand|, t requires 0 <= t < |demand| =>
      var percent := 100.0 * demand[t] / capacity;
      if percent > 100.0 then 100.0 else percent)
  }

  function Levels(utilization: seq<real>): (levels: seq<int>)
    ensures |levels| == |utilization|
  {
    seq(|utilization|, t requires 0 <= t < |utilization| => ToLevel(utilization[t]))
  }

  function Count(levels: seq<int>, u: int, k: nat): nat
    requires k <= |levels|
  {
    if k == 0 then 0 else Count(levels, u, k - 1) + (if levels[k - 1] == u then 1 else 0)
  }

  /** Fraction of instants spent at each visited level. */
  function WorkloadDistribution(utilization: seq<real>): map<int, real> {
    var levels := Levels(utilization);
    map u | u in levels :: Count(levels, u, |levels|) as real / |levels| as real
  }

  // ---------------------------------------------------------------- interpolation

  ghost predicate Increasing(xs: seq<int>) {
    forall i, j :: 0 <= i < j < |xs| ==> xs[i] < xs[j]
  }

  predicate IsLeast(m: int, s: set<int>) {
    m in s && forall x :: x in s ==> m <= x
  }

  lemma {:induction false} LeastOf(s: set<int>) returns (m: int)
    requires s != {}
    ensures IsLeast(m, s)
    decreases |s|
  {
    assert (forall x: int :: x !in s) ==> s == {};
    m :| m in s;
    if y :| y in s && y < m {
      var rest := s - {m};
      assert y in rest && s == rest + {m};
      m := LeastOf(rest);
    }
  }

  /** The elements of a set in increasing order. */
  function Sorted(s: set<int>): (xs: seq<int>)
    ensures |xs| == |s| && Increasing(xs)
    ensures forall x :: x in xs <==> x in s
    decreases |s|
  {
    if s == {} then []
    else
      assert exists m :: IsLeast(m, s) by { var m := LeastOf(s); }
      var m :| IsLeast(m, s);
      [m] + Sorted(s - {m})
  }

  /** Index of the last observed level at or below u, searching down from j. */
  function Segment(xs: seq<int>, u: int, j: nat): (k: nat)
    requires j < |xs| && xs[0] <= u
    ensures k <= j && xs[k] <= u
    ensures k < j ==> u < xs[k + 1]
  {
    if xs[j] <= u then j else Segment(xs, u, j - 1)
  }

  /** The point d of the way along a segment of width w. */
  function Lerp(y0: real, y1: real, d: real, w: real): real
    requires w > 0.0
  {
    (y1 - y0) / w * d + y0
  }

  /** Piecewise linear through the points, held constant outside them. */
  function Interp(xs: seq<int>, ys: seq<real>, u: int): real
    requires |xs| == |ys| > 0 && Increasing(xs)
  {
    var last := |xs| - 1;
    if u <= xs[0] then ys[0]
    else if u >= xs[last] then ys[last]
    else
      var j := Segment(xs, u, last);
      Lerp(ys[j], ys[j + 1], (u - xs[j]) as real, (xs[j + 1] - xs[j]) as real)
  }

  lemma LerpBetween(y0: real, y1: real, d: real, w: real)
    requires y0 <= y1 && 0.0 <= d <= w && w > 0.0
    ensures y0 <= Lerp(y0, y1, d, w) <= y1
  {
    var slope := (y1 - y0) / w;
    DivMono(0.0, y1 - y0, w);
    MulMono(slope, 0.0, d);
    MulMono(slope, d, w);
    assert slope * w == y1 - y0;
  }

  lemma LerpIncreases(y0: real, y1: real, d: real, e: real, w: real)
    requires y0 <= y1 && d <= e && w > 0.0
    ensures Lerp(y0, y1, d, w) <= Lerp(y0, y1, e, w)
  {
    DivMono(0.0, y1 - y0, w);
    MulMono((y1 - y0) / w, d, e);
  }

  lemma LerpMonotone(y0: real, y1: real, z0: real, z1: real, d: real, w: real)
    requires y0 <= z0 && y1 <= z1 && 0.0 <= d <= w && w > 0.0
    ensures Lerp(y0, y1, d, w) <= Lerp(z0, z1, d, w)
  {
    var t := d / w;
    MeanBetween(d, 0.0, 1.0, w);
    LerpIsMix(y0, y1, d, w, t, 1.0 - t);
    LerpIsMix(z0, z1, d, w, t, 1.0 - t);
    MulMono(t, y1, z1);
    MulMono(1.0 - t, y0, z0);
  }

  lemma LerpIsMix(y0: real, y1: real, d: real, w: real, t: real, u: real)
    requires w > 0.0 && t == d / w && u == 1.0 - t
    ensures Lerp(y0, y1, d, w) == t * y1 + u * y0
  {
    assert (y1 - y0) / w * d == (y1 - y0) * t;
    assert u * y0 == y0 - t * y0;
  }

  lemma InterpOnSegment(xs: seq<int>, ys: seq<real>, u: int, j: nat)
    requires |xs| == |ys| > 0 && Increasing(xs) && NonDecreasing(ys)
    requires j + 1 < |xs| && xs[j] <= u <= xs[j + 1]
    ensures Interp(xs, ys, u) == Lerp(ys[j], ys[j + 1], (u - xs[j]) as real, (xs[j + 1] - xs[j]) as real)
    ensures ys[j] <= Interp(xs, ys, u) <= ys[j + 1]
  {
    var d, w := (u - xs[j]) as real, (xs[j + 1] - xs[j]) as real;
    LerpBetween(ys[j], ys[j + 1], d, w);
    LerpEnds(ys[j], ys[j + 1], w);
    var last := |xs| - 1;
    if xs[0] < u < xs[last] {
      var k := Segment(xs, u, last);
      assert k == j || (k == j + 1 && u == xs[k]);
      if k == j + 1 {
        LerpEnds(ys[k], ys[k + 1], (xs[k + 1] - xs[k]) as real);
      }
    }
  }

  lemma LerpEnds(y0: real, y1: real, w: real)
    requires w > 0.0
    ensures Lerp(y0, y1, 0.0, w) == y0 && Lerp(y0, y1, w, w) == y1
  {
    assert (y1 - y0) / w * w == y1 - y0;
  }

  lemma InterpInRange(xs: seq<int>, ys: seq<real>, u: int)
    requires |xs| == |ys| > 0 && Increasing(xs) && NonDecreasing(ys)
    ensures ys[0] <= Interp(xs, ys, u) <= ys[|ys| - 1]
  {
    if xs[0] < u < xs[|xs| - 1] {
      InterpOnSegment(xs, ys, u, Segment(xs, u, |xs| - 1));
    }
  }

  lemma InterpNonDecreasing(xs: seq<int>, ys: seq<real>, u: int, t: int)
    requires |xs| == |ys| > 0 && Increasing(xs) && NonDecreasing(ys) && u <= t
    ensures Interp(xs, ys, u) <= Interp(xs, ys, t)
  {
    InterpInRange(xs, ys, u);
    InterpInRange(xs, ys, t);
    var last := |xs| - 1;
    if xs[0] < u && t < xs[last] {
      var j, k := Segment(xs, u, last), Segment(xs, t, last);
      assert j <= k;
      InterpOnSegment(xs, ys, u, j);
      InterpOnSegment(xs, ys, t, k);
      if j == k {
        LerpIncreases(ys[j], ys[j + 1], (u - xs[j]) as real, (t - xs[j]) as real, (xs[j + 1] - xs[j]) as real);
      } else {
        assert ys[j + 1] <= ys[k];
      }
    }
  }

  lemma InterpAtPoint(xs: seq<int>, ys: seq<real>, j: nat)
    requires |xs| == |ys| > 0 && Increasing(xs) && j < |xs|
    ensures Interp(xs, ys, xs[j]) == ys[j]
  {
    if 0 < j < |xs| - 1 {
      var k := Segment(xs, xs[j], |xs| - 1);
      assert k == j;
      LerpEnds(ys[j], ys[j + 1], (xs[j + 1] - xs[j]) as real);
    }
  }

  lemma InterpMonotone(xs: seq<int>, ys: seq<real>, zs: seq<real>, u: int)
    requires |xs| == |ys| > 0 && Increasing(xs) && PointwiseAtMost(ys, zs)
    ensures Interp(xs, ys, u) <= Interp(xs, zs, u)
  {
    var last := |xs| - 1;
    if xs[0] < u < xs[last] {
      var j := Segment(xs, u, last);
      LerpMonotone(ys[j], ys[j + 1], zs[j], zs[j + 1], (u - xs[j]) as real, (xs[j + 1] - xs[j]) as real);
    }
  }

  // ---------------------------------------------------------------- the curve

  function Observations(levelMeans: map<int, real>): (vs: seq<real>)
    ensures |vs| == |Sorted(levelMeans.Keys)|
  {
    var xs := Sorted(levelMeans.Keys);
    seq(|xs|, i requires 0 <= i < |xs| => levelMeans[xs[i]])
  }

  function CurveAt(levelMeans: map<int, real>, u: int): real
    requires levelMeans != map[]
  {
    Interp(Sorted(levelMeans.Keys), IsotonicFit(Observations(levelMeans)), u)
  }

  ghost predicate IsCurveOf(curve: map<int, real>, levelMeans: map<int, real>) {
    && levelMeans != map[]
    && (forall u :: u in curve <==> 0 <= u <= 100)
    && forall u :: u in curve ==> curve[u] == CurveAt(levelMeans, u)
  }

  /** Isotonic fit of the per-level averages, interpolated over the levels 0..100. */
  method BuildPowerCurve(levelMeans: map<int, real>) returns (curve: map<int, real>)
    requires levelMeans != map[]
    ensures IsCurveOf(curve, levelMeans)
  {
    hide Interp, IsLeastSquaresFit, IsotonicFit, Sorted, Prefix;
    var xs := Sorted(levelMeans.Keys);
    var ys, _ := IsotonicRegression(seq(|xs|, i requires 0 <= i < |xs| => levelMeans[xs[i]]));
    assert |xs| > 0;
    curve := map u | 0 <= u <= 100 :: Interp(xs, ys, u);
  }

  /** More utilization never draws less power. */
  lemma {:induction false} CurveNonDecreasing(levelMeans: map<int, real>, u: int, t: int)
    requires levelMeans != map[] && u <= t
    ensures CurveAt(levelMeans, u) <= CurveAt(levelMeans, t)
  {
    FitIsCertified(Observations(levelMeans));
    InterpNonDecreasing(Sorted(levelMeans.Keys), IsotonicFit(Observations(levelMeans)), u, t);
  }

  /** The curve never leaves the range of the measured averages. */
  lemma {:induction false} CurveInObservedRange(levelMeans: map<int, real>, u: int, lo: real, hi: real)
    requires levelMeans != map[]
    requires forall x :: x in levelMeans ==> lo <= levelMeans[x] <= hi
    ensures lo <= CurveAt(levelMeans, u) <= hi
  {
    hide Interp, IsotonicFit, Sorted, Prefix;
    var vs := Observations(levelMeans);
    FitIsCertified(vs);
    InterpInRange(Sorted(levelMeans.Keys), IsotonicFit(vs), u);
    FitAtLeast(vs, 0, lo);
    FitAtMost(vs, |vs| - 1, hi);
  }

  /** At an observed level the curve is the fitted value of that level. */
  lemma {:induction false} CurveAtObservedLevel(levelMeans: map<int, real>, j: nat)
    requires j < |Sorted(levelMeans.Keys)|
    ensures CurveAt(levelMeans, Sorted(levelMeans.Keys)[j]) == IsotonicFit(Observations(levelMeans))[j]
  {
    InterpAtPoint(Sorted(levelMeans.Keys), IsotonicFit(Observations(levelMeans)), j);
  }

  /** Raising any measured average never lowers the curve anywhere. */
  lemma {:induction false} CurveMonotone(a: map<int, real>, b: map<int, real>, u: int)
    requires a != map[] && a.Keys == b.Keys
    requires forall x :: x in a ==> a[x] <= b[x]
    ensures CurveAt(a, u) <= CurveAt(b, u)
  {
    FitMonotone(Observations(a), Observations(b));
    hide IsotonicFit, Interp, Sorted;
    InterpMonotone(Sorted(a.Keys), IsotonicFit(Observations(a)), IsotonicFit(Observations(b)), u);
  }

  /** y lies on the straight line from y0 to y1, d steps after y0 and e steps before y1. */
  ghost predicate OnOneLine(y0: real, y: real, y1: real, d: int, e: int) {
    (d + e) as real * y == e as real * y0 + d as real * y1
  }

  lemma LerpIsLinear(y0: real, y1: real, d: int, e: int, y: real)
    requires d + e > 0 && y == Lerp(y0, y1, d as real, (d + e) as real)
    ensures OnOneLine(y0, y, y1, d, e)
  {
    SlopeTimesWidth(y0, y1, d as real, e as real, (d + e) as real, y);
  }

  lemma SlopeTimesWidth(y0: real, y1: real, d: real, e: real, w: real, y: real)
    requires w > 0.0 && e == w - d && y == Lerp(y0, y1, d, w)
    ensures w * y == e * y0 + d * y1
  {
    var slope := (y1 - y0) / w;
    assert slope * w == y1 - y0;
    assert y == slope * d + y0;
    hide Lerp;
    assert w * y == (slope * w) * d + w * y0;
  }

  ghost predicate AreNeighbours(levels: set<int>, lo: int, hi: int) {
    lo in levels && hi in levels && lo < hi && forall x :: x in levels ==> x <= lo || hi <= x
  }

  lemma NeighboursAt(levels: set<int>, lo: int, hi: int) returns (i: nat)
    requires AreNeighbours(levels, lo, hi)
    ensures i + 1 < |Sorted(levels)| && Sorted(levels)[i] == lo && Sorted(levels)[i + 1] == hi
  {
    var xs := Sorted(levels);
    hide Sorted;
    var k, j :| 0 <= k < |xs| && xs[k] == lo && 0 <= j < |xs| && xs[j] == hi;
    i := k;
    assert xs[i + 1] in levels;
  }

  lemma InterpIsLinear(xs: seq<int>, ys: seq<real>, lo: int, u: int, hi: int, i: nat)
    requires |xs| == |ys| && Increasing(xs) && NonDecreasing(ys)
    requires i + 1 < |xs| && xs[i] == lo <= u <= hi == xs[i + 1]
    ensures OnOneLine(Interp(xs, ys, lo), Interp(xs, ys, u), Interp(xs, ys, hi), u - lo, hi - u)
  {
    InterpOnSegment(xs, ys, u, i);
    InterpAtPoint(xs, ys, i);
    InterpAtPoint(xs, ys, i + 1);
    var y0, y, y1 := ys[i], Interp(xs, ys, u), ys[i + 1];
    var d, e := u - lo, hi - u;
    assert y == Lerp(y0, y1, d as real, (d + e) as real);
    hide *;
    LerpIsLinear(y0, y1, d, e, y);
  }

  lemma CurvePoints(levelMeans: map<int, real>, lo: int, hi: int) returns (xs: seq<int>, ys: seq<real>, i: nat)
    requires levelMeans != map[] && AreNeighbours(levelMeans.Keys, lo, hi)
    ensures |xs| == |ys| && Increasing(xs) && NonDecreasing(ys)
    ensures i + 1 < |xs| && xs[i] == lo && xs[i + 1] == hi
    ensures forall u :: CurveAt(levelMeans, u) == Interp(xs, ys, u)
  {
    i := NeighboursAt(levelMeans.Keys, lo, hi);
    FitIsCertified(Observations(levelMeans));
    xs, ys := Sorted(levelMeans.Keys), IsotonicFit(Observations(levelMeans));
    hide IsotonicFit, Sorted, Observations, Interp, Prefix;
  }

  /** Between two neighbouring observed levels the curve is the straight line through its values there. */
  lemma {:induction false} CurveIsLinear(levelMeans: map<int, real>, lo: int, u: int, hi: int)
    requires levelMeans != map[] && AreNeighbours(levelMeans.Keys, lo, hi) && lo <= u <= hi
    ensures OnOneLine(CurveAt(levelMeans, lo), CurveAt(levelMeans, u), CurveAt(levelMeans, hi), u - lo, hi - u)
  {
    var xs, ys, i := CurvePoints(levelMeans, lo, hi);
    hide *;
    InterpIsLinear(xs, ys, lo, u, hi, i);
  }

  lemma InterpIsFlat(xs: seq<int>, ys: seq<real>, u: int, x: int)
    requires |xs| == |ys| > 0 && Increasing(xs)
    requires (u <= x && x == xs[0]) || (x <= u && x == xs[|xs| - 1])
    ensures Interp(xs, ys, u) == Interp(xs, ys, x)
  {
  }

  lemma EndOf(xs: seq<int>, x: int, least: bool)
    requires Increasing(xs) && x in xs
    requires forall y :: y in xs ==> if least then x <= y else y <= x
    ensures x == if least then xs[0] else xs[|xs| - 1]
  {
    assert xs[0] in xs && xs[|xs| - 1] in xs;
  }

  /** Below the least and above the greatest observed level the curve is constant. */
  lemma {:induction false} CurveIsFlatOutside(levelMeans: map<int, real>, u: int, x: int)
    requires levelMeans != map[] && x in levelMeans.Keys
    requires (u <= x && forall y :: y in levelMeans.Keys ==> x <= y)
          || (x <= u && forall y :: y in levelMeans.Keys ==> y <= x)
    ensures CurveAt(levelMeans, u) == CurveAt(levelMeans, x)
  {
    var xs := Sorted(levelMeans.Keys);
    EndOf(xs, x, u <= x && forall y :: y in levelMeans.Keys ==> x <= y);
    hide Sorted, IsotonicFit, Observations, Interp;
    InterpIsFlat(xs, IsotonicFit(Observations(levelMeans)), u, x);
  }

  // ---------------------------------------------------------------- weighted average power

  /** Sum over the levels 0..k-1 of frequency times power. */
  function WeightedPower(distribution: map<int, real>, curve: map<int, real>, k: nat): real
    requires forall u :: 0 <= u < k && u in distribution ==> u in curve
  {
    if k == 0 then 0.0
    else WeightedPower(distribution, curve, k - 1)
         + (if k - 1 in distribution then distribution[k - 1] * curve[k - 1] else 0.0)
  }

  /** Nearest integer, ties to even. */
  function RoundHalfEven(x: real): int {
    var f := x.Floor;
    var d := x - f as real;
    if d < 0.5 || (d == 0.5 && f % 2 == 0) then f else f + 1
  }

  function Round3(x: real): real {
    RoundHalfEven(x * 1000.0) as real / 1000.0
  }

  /** The WAP of every node that has a curve and a non-empty distribution. */
  function CalculateWap(distributions: map<string, map<int, real>>, curves: map<string, map<int, real>>): map<string,
                        real>
    requires forall node :: node in distributions && node in curves ==>
               forall u :: u in distributions[node] ==> u in curves[node]
  {
    map node | node in distributions && node in curves && distributions[node] != map[] ::
      NodeWap(distributions[node], curves[node])
  }

  function NodeWap(distribution: map<int, real>, curve: map<int, real>): real
    requires forall u :: 0 <= u <= 100 && u in distribution ==> u in curve
  {
    Round3(WeightedPower(distribution, curve, 101))
  }

  ghost predicate IsFullCurve(curve: map<int, real>) {
    forall u :: 0 <= u <= 100 ==> u in curve
  }

  /** Sum over the first n instants of the curve at the level of each instant. */
  function PowerAlong(levels: seq<int>, curve: map<int, real>, n: nat): real
    requires n <= |levels| && forall t :: 0 <= t < n ==> levels[t] in curve
  {
    if n == 0 then 0.0 else PowerAlong(levels, curve, n - 1) + curve[levels[n - 1]]
  }

  /** Sum over the levels below k of how often they occur among the first n instants, times power. */
  function PowerByLevel(levels: seq<int>, curve: map<int, real>, n: nat, k: nat): real
    requires n <= |levels| && k <= 101 && IsFullCurve(curve)
  {
    if k == 0 then 0.0
    else PowerByLevel(levels, curve, n, k - 1) + Times(curve[k - 1], Count(levels, k - 1, n))
  }

  lemma {:induction false} OneMoreInstant(levels: seq<int>, curve: map<int, real>, n: nat, k: nat)
    requires 0 < n <= |levels| && k <= 101 && IsFullCurve(curve)
    requires 0 <= levels[n - 1] <= 100
    ensures PowerByLevel(levels, curve, n, k)
         == PowerByLevel(levels, curve, n - 1, k) + (if levels[n - 1] < k then curve[levels[n - 1]] else 0.0)
  {
    if k > 0 {
      OneMoreInstant(levels, curve, n, k - 1);
    }
  }

  lemma {:induction false} CountingBothWays(levels: seq<int>, curve: map<int, real>, n: nat)
    requires n <= |levels| && IsFullCurve(curve)
    requires forall t :: 0 <= t < |levels| ==> 0 <= levels[t] <= 100
    ensures PowerByLevel(levels, curve, n, 101) == PowerAlong(levels, curve, n)
  {
    if n > 0 {
      CountingBothWays(levels, curve, n - 1);
      OneMoreInstant(levels, curve, n, 101);
    } else {
      NothingYet(levels, curve, 101);
    }
  }

  lemma {:induction false} NothingYet(levels: seq<int>, curve: map<int, real>, k: nat)
    requires k <= 101 && IsFullCurve(curve)
    ensures PowerByLevel(levels, curve, 0, k) == 0.0
  {
    if k > 0 { NothingYet(levels, curve, k - 1); }
  }

  lemma {:induction false} CountAbsent(levels: seq<int>, u: int, n: nat)
    requires n <= |levels| && u !in levels
    ensures Count(levels, u, n) == 0
  {
    if n > 0 { CountAbsent(levels, u, n - 1); }
  }

  lemma {:induction false} TimesOfSum(a: real, b: real, n: nat)
    ensures Times(a + b, n) == Times(a, n) + Times(b, n)
  {
    if n > 0 { TimesOfSum(a, b, n - 1); }
  }

  lemma ShareProduct(p: real, c: real, n: real, share: real)
    requires n > 0.0 && share == c / n * p
    ensures share * n == p * c
  {
    assert c / n * n == c;
  }

  /** A level's share of the mean, over n instants: c of them draw p watts. */
  lemma TimesOfShare(p: real, c: nat, n: nat, share: real)
    requires n > 0 && share == c as real / n as real * p
    ensures Times(share, n) == Times(p, c)
  {
    TimesIsProduct(p, c);
    TimesIsProduct(share, n);
    ShareProduct(p, c as real, n as real, share);
  }

  lemma MeanOfTimes(w: real, n: nat)
    requires n > 0
    ensures w == Times(w, n) / n as real
  {
    TimesIsProduct(w, n);
    assert w * n as real / n as real == w;
  }

  /** What level k - 1 adds to the weighted power: its share of the instants times its power. */
  lemma ShareOfLevel(utilization: seq<real>, curve: map<int, real>, k: nat)
    requires utilization != [] && 0 < k <= 101 && IsFullCurve(curve)
    ensures var d, c := WorkloadDistribution(utilization), Count(Levels(utilization), k - 1, |utilization|);
            WeightedPower(d, curve, k) - WeightedPower(d, curve, k - 1)
            == c as real / |utilization| as real * curve[k - 1]
  {
    var levels := Levels(utilization);
    if k - 1 !in levels { CountAbsent(levels, k - 1, |utilization|); }
    assert (k - 1 in WorkloadDistribution(utilization)) == (k - 1 in levels);
    hide Levels, Count;
  }

  lemma WeightedPowerStep(utilization: seq<real>, curve: map<int, real>, k: nat)
    requires utilization != [] && 0 < k <= 101 && IsFullCurve(curve)
    ensures var d := WorkloadDistribution(utilization);
            Times(WeightedPower(d, curve, k) - WeightedPower(d, curve, k - 1), |utilization|)
            == Times(curve[k - 1], Count(Levels(utilization), k - 1, |utilization|))
  {
    ShareOfLevel(utilization, curve, k);
    hide WorkloadDistribution, WeightedPower, Levels, Count, Times;
    var d, n := WorkloadDistribution(utilization), |utilization|;
    TimesOfShare(curve[k - 1], Count(Levels(utilization), k - 1, n), n,
                 WeightedPower(d, curve, k) - WeightedPower(d, curve, k - 1));
  }

  lemma {:induction false} WeightedPowerIsScaled(utilization: seq<real>, curve: map<int, real>, k: nat)
    requires utilization != [] && k <= 101 && IsFullCurve(curve)
    ensures Times(WeightedPower(WorkloadDistribution(utilization), curve, k), |utilization|)
         == PowerByLevel(Levels(utilization), curve, |utilization|, k)
  {
    var d, n := WorkloadDistribution(utilization), |utilization|;
    if k > 0 {
      WeightedPowerIsScaled(utilization, curve, k - 1);
      WeightedPowerStep(utilization, curve, k);
      var before := WeightedPower(d, curve, k - 1);
      TimesOfSum(before, WeightedPower(d, curve, k) - before, n);
    } else {
      TimesIsProduct(0.0, n);
    }
  }

  /** The histogram form of the WAP is the mean over instants of the power at each instant. */
  lemma {:induction false} WapIsMeanPower(utilization: seq<real>, curve: map<int, real>)
    requires utilization != [] && IsFullCurve(curve)
    ensures WeightedPower(WorkloadDistribution(utilization), curve, 101)
         == PowerAlong(Levels(utilization), curve, |utilization|) / |utilization| as real
  {
    WeightedPowerIsScaled(utilization, curve, 101);
    CountingBothWays(Levels(utilization), curve, |utilization|);
    hide *;
    MeanOfTimes(WeightedPower(WorkloadDistribution(utilization), curve, 101), |utilization|);
  }

  lemma {:induction false} PowerAlongBounds(levels: seq<int>, curve: map<int, real>, n: nat, lo: real, hi: real)
    requires n <= |levels| && forall t :: 0 <= t < n ==> levels[t] in curve && lo <= curve[levels[t]] <= hi
    ensures Times(lo, n) <= PowerAlong(levels, curve, n) <= Times(hi, n)
  {
    if n > 0 { PowerAlongBounds(levels, curve, n - 1, lo, hi); }
  }

  lemma TimesMeanBetween(total: real, lo: real, hi: real, n: nat)
    requires n > 0 && Times(lo, n) <= total <= Times(hi, n)
    ensures lo <= total / n as real <= hi
  {
    TimesIsProduct(lo, n);
    TimesIsProduct(hi, n);
    MeanBetween(total, lo, hi, n as real);
  }

  /** The WAP lies between the least and the greatest power of the curve. */
  lemma {:induction false} WapInCurveRange(utilization: seq<real>, curve: map<int, real>, lo: real, hi: real)
    requires utilization != [] && IsFullCurve(curve)
    requires forall u :: 0 <= u <= 100 ==> lo <= curve[u] <= hi
    ensures lo <= WeightedPower(WorkloadDistribution(utilization), curve, 101) <= hi
  {
    WapIsMeanPower(utilization, curve);
    PowerAlongBounds(Levels(utilization), curve, |utilization|, lo, hi);
    TimesMeanBetween(PowerAlong(Levels(utilization), curve, |utilization|), lo, hi, |utilization|);
  }

  lemma {:induction false} PowerAlongMonotone(a: seq<int>, b: seq<int>, curve: map<int, real>, n: nat)
    requires n <= |a| && n <= |b|
    requires forall t :: 0 <= t < n ==> a[t] in curve && b[t] in curve && curve[a[t]] <= curve[b[t]]
    ensures PowerAlong(a, curve, n) <= PowerAlong(b, curve, n)
  {
    if n > 0 { PowerAlongMonotone(a, b, curve, n - 1); }
  }

  /** The same demand puts a larger node at a lower level (or the same). */
  lemma {:induction false} LargerNodeLowerLevel(demand: seq<real>, small: real, large: real, t: nat)
    requires 0.0 < small <= large && t < |demand|
    ensures Levels(InducedUtilization(demand, large))[t] <= Levels(InducedUtilization(demand, small))[t]
  {
    DivAntitone(100.0 * demand[t], small, large);
  }

  lemma RoundMonotone(x: real, y: real)
    requires x <= y
    ensures Round3(x) <= Round3(y)
  {
    RoundHalfEvenMonotone(x * 1000.0, y * 1000.0);
    DivMono(RoundHalfEven(x * 1000.0) as real, RoundHalfEven(y * 1000.0) as real, 1000.0);
  }

  lemma RoundHalfEvenMonotone(x: real, y: real)
    requires x <= y
    ensures RoundHalfEven(x) <= RoundHalfEven(y)
  {
    assert x.Floor <= y.Floor;
  }

  lemma LevelOf(percent: real, l: int)
    requires 0 <= l <= 100
    ensures ToLevel(if percent > 100.0 then 100.0 else percent) == l <==>
              && (l > 0 ==> l as real - 0.000000001 <= percent)
              && (l < 100 ==> percent < (l + 1) as real - 0.000000001)
  {
  }

  lemma Against(q: real, m: real, d: real)
    requires d > 0.0
    ensures q < m <==> q * d < m * d
  {
    if q < m { assert (m - q) * d > 0.0; } else { assert (q - m) * d >= 0.0; }
  }

  /** The level of an instant is the whole percentage, up to a billionth, that its demand is of the
      node's capacity; more than the capacity is 100, and less than nothing is 0. */
  lemma {:induction false} LevelIs(demand: seq<real>, capacity: real, t: nat, l: int)
    requires 0.0 < capacity && t < |demand| && 0 <= l <= 100
    ensures Levels(InducedUtilization(demand, capacity))[t] == l <==>
              && (l > 0 ==> (l as real - 0.000000001) * capacity <= 100.0 * demand[t])
              && (l < 100 ==> 100.0 * demand[t] < ((l + 1) as real - 0.000000001) * capacity)
  {
    var percent := 100.0 * demand[t] / capacity;
    LevelOf(percent, l);
    QuotientAgainst(100.0 * demand[t], capacity, l as real - 0.000000001);
    QuotientAgainst(100.0 * demand[t], capacity, (l + 1) as real - 0.000000001);
    hide ToLevel;
  }

  lemma QuotientAgainst(a: real, d: real, m: real)
    requires d > 0.0
    ensures a / d < m <==> a < m * d
  {
    assert a / d * d == a;
    Against(a / d, m, d);
  }

  lemma HalfEvenIs(x: real, n: int)
    ensures x - RoundHalfEven(x) as real <= 0.5 && RoundHalfEven(x) as real - x <= 0.5
    ensures n % 2 == 0 && (x - n as real == 0.5 || n as real - x == 0.5) ==> RoundHalfEven(x) == n
  {
    var f := x.Floor;
    if n % 2 == 0 {
      if x - n as real == 0.5 { assert f == n; }
      if n as real - x == 0.5 { assert f == n - 1; }
    }
  }

  /** The rounded power is a nearest thousandth, the even one of two. */
  lemma {:induction false} RoundsToNearest(x: real, n: int)
    ensures 1000.0 * Round3(x) == RoundHalfEven(1000.0 * x) as real
    ensures 1000.0 * (x - Round3(x)) <= 0.5 && 1000.0 * (Round3(x) - x) <= 0.5
    ensures n % 2 == 0 && (1000.0 * x - n as real == 0.5 || n as real - 1000.0 * x == 0.5)
        ==> 1000.0 * Round3(x) == n as real
  {
    HalfEvenIs(1000.0 * x, n);
    hide RoundHalfEven;
  }

  lemma LargerNodeLessPower(demand: seq<real>, small: real, large: real, levelMeans: map<int, real>,
                            curve: map<int, real>)
    requires 0.0 < small <= large && IsCurveOf(curve, levelMeans)
    ensures PowerAlong(Levels(InducedUtilization(demand, large)), curve, |demand|)
         <= PowerAlong(Levels(InducedUtilization(demand, small)), curve, |demand|)
  {
    var us, ul := Levels(InducedUtilization(demand, small)), Levels(InducedUtilization(demand, large));
    forall t | 0 <= t < |demand| ensures curve[ul[t]] <= curve[us[t]] {
      LargerNodeLowerLevel(demand, small, large, t);
      CurveNonDecreasing(levelMeans, ul[t], us[t]);
    }
    PowerAlongMonotone(ul, us, curve, |demand|);
  }

  /** One curve, one shared demand: the node with the larger capacity never has the larger WAP. */
  lemma {:induction false} WapAntitoneInCapacity(demand: seq<real>, small: real, large: real,
                                                 levelMeans: map<int, real>, curve: map<int, real>)
    requires demand != [] && 0.0 < small <= large && IsCurveOf(curve, levelMeans)
    ensures NodeWap(WorkloadDistribution(InducedUtilization(demand, large)), curve)
         <= NodeWap(WorkloadDistribution(InducedUtilization(demand, small)), curve)
  {
    var us, ul := InducedUtilization(demand, small), InducedUtilization(demand, large);
    LargerNodeLessPower(demand, small, large, levelMeans, curve);
    WapIsMeanPower(us, curve);
    WapIsMeanPower(ul, curve);
    DivMono(PowerAlong(Levels(ul), curve, |demand|), PowerAlong(Levels(us), curve, |demand|), |demand| as real);
    RoundMonotone(WeightedPower(WorkloadDistribution(ul), curve, 101),
      WeightedPower(WorkloadDistribution(us), curve, 101));
  }

  /** The distributions of the nodes: the same demand, mapped onto each node's capacity. */
  function Distributions(demand: seq<real>, capacities: map<string, real>): map<string, map<int, real>>
    requires forall node :: node in capacities ==> capacities[node] > 0.0
  {
    map node | node in capacities :: WorkloadDistribution(InducedUtilization(demand, capacities[node]))
  }

  ghost predicate AreCurves(curves: map<string, map<int, real>>, levels: map<string, map<int, real>>) {
    forall node :: node in curves ==> node in levels && IsCurveOf(curves[node], levels[node])
  }

  lemma DistributionLevels(utilization: seq<real>, u: int)
    requires u in WorkloadDistribution(utilization)
    ensures 0 <= u <= 100
  {
  }

  lemma DistributionIsNotEmpty(utilization: seq<real>)
    requires utilization != []
    ensures WorkloadDistribution(utilization) != map[]
  {
    var u := Levels(utilization)[0];
    assert u in WorkloadDistribution(utilization);
  }

  lemma CurvesCover(demand: seq<real>, capacities: map<string, real>, curves: map<string, map<int, real>>,
                    levels: map<string, map<int, real>>, node: string)
    requires forall n :: n in capacities ==> capacities[n] > 0.0
    requires AreCurves(curves, levels) && node in capacities && node in curves
    ensures forall u :: u in Distributions(demand, capacities)[node] ==> u in curves[node]
  {
    hide WorkloadDistribution;
    forall u | u in Distributions(demand, capacities)[node] ensures u in curves[node] {
      DistributionLevels(InducedUtilization(demand, capacities[node]), u);
    }
  }

  lemma AllCurvesCover(demand: seq<real>, capacities: map<string, real>, curves: map<string, map<int, real>>,
                       levels: map<string, map<int, real>>)
    requires forall n :: n in capacities ==> capacities[n] > 0.0
    requires AreCurves(curves, levels)
    ensures var ds := Distributions(demand, capacities);
            forall node :: node in ds && node in curves ==> forall u :: u in ds[node] ==> u in curves[node]
  {
    hide WorkloadDistribution, AreCurves;
    forall node | node in Distributions(demand, capacities) && node in curves
      ensures forall u :: u in Distributions(demand, capacities)[node] ==> u in curves[node]
    {
      CurvesCover(demand, capacities, curves, levels, node);
    }
  }

  /** One demand for all nodes: every node with a curve and a capacity gets a WAP, and of two nodes with
      one curve the larger never gets the larger one. */
  lemma {:induction false} WapsOrderedByCapacity(
    demand: seq<real>, capacities: map<string, real>, levels: map<string, map<int, real>>,
    curves: map<string, map<int, real>>, small: string, large: string)
    requires demand != [] && (forall n :: n in capacities ==> capacities[n] > 0.0) && AreCurves(curves, levels)
    requires small in capacities && large in capacities && capacities[small] <= capacities[large]
    requires small in curves && large in curves && curves[small] == curves[large]
    ensures forall node :: node in Distributions(demand, capacities) && node in curves ==>
              forall u :: u in Distributions(demand, capacities)[node] ==> u in curves[node]
    ensures var waps := CalculateWap(Distributions(demand, capacities), curves);
            && waps.Keys == capacities.Keys * curves.Keys
            && waps[large] <= waps[small]
  {
    AllCurvesCover(demand, capacities, curves, levels);
    var ds := Distributions(demand, capacities);
    forall node | node in ds ensures ds[node] != map[] {
      DistributionIsNotEmpty(InducedUtilization(demand, capacities[node]));
    }
    hide WorkloadDistribution, NodeWap, InducedUtilization, IsCurveOf, CurveAt;
    WapAntitoneInCapacity(demand, capacities[small], capacities[large], levels[small], curves[small]);
  }

  lemma RoundedWithin(x: real, mean: real)
    requires x == mean
    ensures -0.0005 <= Round3(x) - mean <= 0.0005
  {
    RoundsToNearest(x, 0);
    hide Round3;
  }

  /** The WAP of a node is, to the thousandth, the mean of the power its curve has at the level that the
      shared demand induces on it at each instant. */
  lemma {:induction false} WapIsMeanDemandPower(
    demand: seq<real>, capacities: map<string, real>, levels: map<string, map<int, real>>,
    curves: map<string, map<int, real>>, node: string)
    requires demand != [] && (forall n :: n in capacities ==> capacities[n] > 0.0) && AreCurves(curves, levels)
    requires node in capacities && node in curves
    ensures forall n :: n in Distributions(demand, capacities) && n in curves ==>
              forall u :: u in Distributions(demand, capacities)[n] ==> u in curves[n]
    ensures var waps := CalculateWap(Distributions(demand, capacities), curves);
            var visited := Levels(InducedUtilization(demand, capacities[node]));
            && IsFullCurve(curves[node]) && node in waps
            && -0.0005 <= waps[node] - PowerAlong(visited, curves[node], |demand|) / |demand| as real <= 0.0005
  {
    AllCurvesCover(demand, capacities, curves, levels);
    assert IsCurveOf(curves[node], levels[node]);
    var utilization := InducedUtilization(demand, capacities[node]);
    DistributionIsNotEmpty(utilization);
    WapIsMeanPower(utilization, curves[node]);
    hide WorkloadDistribution, InducedUtilization, PowerAlong, Levels, CurveAt, WeightedPower, AreCurves;
    RoundedWithin(WeightedPower(WorkloadDistribution(utilization), curves[node], 101),
      PowerAlong(Levels(utilization), curves[node], |demand|) / |demand| as real);
  }
}
