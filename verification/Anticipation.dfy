/** The anticipation factor: how much a growing load is projected ahead before the decision is taken. */
module Anticipation {
  import opened Options
  import opened Sums
  import opened Decision

  /** One measurement; NotFinite stands for a NaN or an infinity. */
  datatype Sample = Finite(value: real) | NotFinite

  const WINDOW_POINTS := 5

  // ---------------------------------------------------------------- the window

  function FiniteValues(signal: seq<Sample>): seq<real> {
    if signal == [] then []
    else (if signal[0].Finite? then [signal[0].value] else []) + FiniteValues(signal[1..])
  }

  function Last(s: seq<real>, n: nat): seq<real> {
    if |s| <= n then s else s[|s| - n..]
  }

  function Recent(signal: seq<Sample>): seq<real> {
    Last(FiniteValues(signal), WINDOW_POINTS)
  }

  // ---------------------------------------------------------------- the median

  function Insert(x: real, s: seq<real>): seq<real> {
    if s == [] || x <= s[0] then [x] + s else [s[0]] + Insert(x, s[1..])
  }

  function Ascending(s: seq<real>): seq<real> {
    if s == [] then [] else Insert(s[0], Ascending(s[1..]))
  }

  lemma ConsSorts(x: real, s: seq<real>)
    requires NonDecreasing(s) && forall v :: v in s ==> x <= v
    ensures NonDecreasing([x] + s)
  {
    forall i, j | 0 <= i <= j < |[x] + s| ensures ([x] + s)[i] <= ([x] + s)[j] {
      if 0 == i < j { assert s[j - 1] in s; }
    }
  }

  lemma {:induction false} InsertKeeps(x: real, s: seq<real>)
    ensures multiset(Insert(x, s)) == multiset(s) + multiset{x} && |Insert(x, s)| == |s| + 1
  {
    if s != [] && x > s[0] {
      InsertKeeps(x, s[1..]);
      assert s == [s[0]] + s[1..];
    }
  }

  lemma {:induction false} InsertSorts(x: real, s: seq<real>)
    requires NonDecreasing(s)
    ensures NonDecreasing(Insert(x, s))
  {
    if s == [] || x <= s[0] {
      ConsSorts(x, s);
    } else {
      InsertSorts(x, s[1..]);
      InsertKeeps(x, s[1..]);
      var t := Insert(x, s[1..]);
      forall v | v in t ensures s[0] <= v {
        assert v in multiset(t);
        assert v == x || v in s[1..];
      }
      ConsSorts(s[0], t);
    }
  }

  lemma {:induction false} AscendingSorts(s: seq<real>)
    ensures NonDecreasing(Ascending(s)) && multiset(Ascending(s)) == multiset(s) && |Ascending(s)| == |s|
  {
    if s != [] {
      AscendingSorts(s[1..]);
      InsertSorts(s[0], Ascending(s[1..]));
      InsertKeeps(s[0], Ascending(s[1..]));
      assert s == [s[0]] + s[1..];
    }
  }

  function Median(s: seq<real>): real
    requires s != []
  {
    AscendingSorts(s);
    var t := Ascending(s);
    var h := |s| / 2;
    if |s| % 2 == 1 then t[h] else (t[h - 1] + t[h]) / 2.0
  }

  lemma HeadsAgree(s: seq<real>, t: seq<real>)
    requires NonDecreasing(s) && NonDecreasing(t) && s != [] && t != [] && multiset(s) == multiset(t)
    ensures s[0] == t[0]
  {
    assert s[0] in multiset(t) && t[0] in multiset(s);
  }

  lemma TailsAgree(s: seq<real>, t: seq<real>)
    requires s != [] && t != [] && s[0] == t[0] && multiset(s) == multiset(t)
    ensures multiset(s[1..]) == multiset(t[1..])
  {
    assert s == [s[0]] + s[1..] && t == [t[0]] + t[1..];
    assert multiset(s[1..]) == multiset(s) - multiset{s[0]};
    assert multiset(t[1..]) == multiset(t) - multiset{t[0]};
  }

  lemma {:induction false} SortedIsUnique(s: seq<real>, t: seq<real>)
    requires NonDecreasing(s) && NonDecreasing(t) && multiset(s) == multiset(t)
    ensures s == t
  {
    assert |s| == |multiset(s)| == |multiset(t)| == |t|;
    if s != [] {
      HeadsAgree(s, t);
      TailsAgree(s, t);
      SortedIsUnique(s[1..], t[1..]);
      assert s == [s[0]] + s[1..] && t == [t[0]] + t[1..];
    }
  }

  /** The median is the mean of the two middle values of the window in order, which are one and the same
      when their number is odd. */
  lemma {:induction false} MedianIsMiddle(s: seq<real>, t: seq<real>)
    requires s != [] && NonDecreasing(t) && multiset(t) == multiset(s)
    ensures |t| == |s| && 2.0 * Median(s) == t[(|s| - 1) / 2] + t[|s| / 2]
  {
    AscendingSorts(s);
    SortedIsUnique(t, Ascending(s));
  }

  lemma {:induction false} FiniteOfLonger(signal: seq<Sample>, x: Sample)
    ensures FiniteValues(signal + [x]) == FiniteValues(signal) + (if x.Finite? then [x.value] else [])
  {
    if signal == [] {
      assert [x][1..] == [];
    } else {
      FiniteOfLonger(signal[1..], x);
      assert (signal + [x])[1..] == signal[1..] + [x];
    }
  }

  /** The window starts empty; a finite measurement enters at its end and, once there are five, pushes out
      the oldest one; any other measurement is ignored. */
  lemma {:induction false} WindowSlides(signal: seq<Sample>, x: Sample)
    ensures Recent([]) == []
    ensures Recent(signal + [x])
         == if x.NotFinite? then Recent(signal)
            else if |Recent(signal)| < 5 then Recent(signal) + [x.value]
            else Recent(signal)[1..] + [x.value]
  {
    FiniteOfLonger(signal, x);
  }

  // ---------------------------------------------------------------- the slope

  /** The sample times, one minute apart. */
  function Times(n: nat): seq<real> {
    seq(n, i => i as real)
  }

  function Deviations(n: nat): seq<real> {
    seq(n, i => i as real - (n as real - 1.0) / 2.0)
  }

  /** The slope of the least-squares line through the samples. */
  function Slope(y: seq<real>): real
    requires |y| >= 2
  {
    SpreadIsPositive(|y|);
    Dot(Deviations(|y|), y, |y|) / Dot(Deviations(|y|), Deviations(|y|), |y|)
  }

  function Mean(y: seq<real>): real
    requires y != []
  {
    Prefix(y, |y|) / |y| as real
  }

  function Intercept(y: seq<real>): real
    requires |y| >= 2
  {
    Mean(y) - Slope(y) * ((|y| as real - 1.0) / 2.0)
  }

  lemma {:induction false} DeviationSquares(n: nat, k: nat)
    requires 1 <= k <= n
    ensures Dot(Deviations(n), Deviations(n), k) >= Dot(Deviations(n), Deviations(n), 1)
  {
    if k > 1 {
      DeviationSquares(n, k - 1);
      var d := Deviations(n)[k - 1];
      assert d * d >= 0.0;
    }
  }

  lemma SpreadIsPositive(n: nat)
    requires n >= 2
    ensures Dot(Deviations(n), Deviations(n), n) > 0.0
  {
    DeviationSquares(n, n);
    var d := Deviations(n)[0];
    assert d < 0.0;
    assert d * d > 0.0;
    assert Dot(Deviations(n), Deviations(n), 1) == Dot(Deviations(n), Deviations(n), 0) + d * d;
  }

  /** The deviations run below zero first: their first k add up to -k (n - k) / 2. */
  lemma {:induction false} DeviationPrefix(n: nat, k: nat)
    requires k <= n
    ensures Prefix(Deviations(n), k) == -(k as real) * (n as real - k as real) / 2.0
  {
    if k > 0 { DeviationPrefix(n, k - 1); }
  }

  // ---------------------------------------------------------------- the slope is the least-squares one

  /** What the line a + b * t leaves unexplained at each sample. */
  function Residuals(y: seq<real>, a: real, b: real): seq<real> {
    seq(|y|, i requires 0 <= i < |y| => y[i] - (a + b * i as real))
  }

  function SquareSum(r: seq<real>, k: nat): (q: real)
    requires k <= |r|
    ensures q >= 0.0
  {
    if k == 0 then 0.0 else SquareSum(r, k - 1) + Square(r[k - 1])
  }

  /** Squares of the line u + v * t over the first k samples. */
  function LineSquares(u: real, v: real, k: nat): (q: real)
    ensures q >= 0.0
  {
    if k == 0 then 0.0 else LineSquares(u, v, k - 1) + Square(Line(u, v, k - 1))
  }

  function Line(u: real, v: real, i: nat): real {
    u + v * i as real
  }

  /** Twice u times p plus v times d. */
  function Cross(u: real, v: real, p: real, d: real): real {
    2.0 * u * p + 2.0 * v * d
  }

  lemma CrossAdds(u: real, v: real, p: real, r: real, d: real, q: real)
    ensures Cross(u, v, p + r, d + q) == Cross(u, v, p, d) + Cross(u, v, r, q)
  {
  }

  lemma ExpandTerm(r: real, u: real, v: real, i: nat)
    ensures Square(r + Line(u, v, i)) == Square(r) + Cross(u, v, r, AtTime(r, i)) + Square(Line(u, v, i))
  {
    var q := AtTime(r, i);
    var l := Line(u, v, i);
    assert Square(r + l) == Square(r) + 2.0 * (r * l) + Square(l);
    assert r * l == u * r + v * q;
  }

  lemma MovedResidual(y: seq<real>, a: real, b: real, u: real, v: real, i: nat)
    requires i < |y|
    ensures Residuals(y, a - u, b - v)[i] == Residuals(y, a, b)[i] + Line(u, v, i)
  {
    var x := i as real;
    assert (b - v) * x == b * x - v * x;
  }

  function AtTime(r: real, i: nat): real {
    r * i as real
  }

  /** The first normal sum of r over its first k samples, and the second. */
  function Moment(r: seq<real>, k: nat): real
    requires k <= |r|
  {
    Dot(r, Times(|r|), k)
  }

  lemma MomentStep(r: seq<real>, k: nat)
    requires 0 < k <= |r|
    ensures Moment(r, k) == Moment(r, k - 1) + AtTime(r[k - 1], k - 1)
  {
  }

  /** Moving the line by (u, v) changes the squared error by a square, up to the two normal equations. */
  lemma {:induction false} MovedLine(y: seq<real>, a: real, b: real, u: real, v: real, k: nat)
    requires k <= |y|
    ensures SquareSum(Residuals(y, a - u, b - v), k)
         == SquareSum(Residuals(y, a, b), k)
            + Cross(u, v, Prefix(Residuals(y, a, b), k), Moment(Residuals(y, a, b), k)) + LineSquares(u, v, k)
  {
    var r := Residuals(y, a, b);
    if k == 0 {
      assert Cross(u, v, 0.0, 0.0) == 0.0;
    } else {
      hide Cross, Line, Square, Residuals, Moment, AtTime;
      MovedLine(y, a, b, u, v, k - 1);
      MovedResidual(y, a, b, u, v, k - 1);
      MomentStep(r, k);
      ExpandTerm(r[k - 1], u, v, k - 1);
      CrossAdds(u, v, Prefix(r, k - 1), r[k - 1], Moment(r, k - 1), AtTime(r[k - 1], k - 1));
    }
  }

  function Fit(m: real, b: real, p: real, q: real): real {
    m * p + b * q
  }

  lemma FitAdds(m: real, b: real, p: real, dp: real, q: real, dq: real)
    ensures Fit(m, b, p + dp, q + dq) == Fit(m, b, p, q) + Fit(m, b, dp, dq)
  {
  }

  function Product(x: real, y: real): real {
    x * y
  }

  lemma DotStep(a: seq<real>, b: seq<real>, k: nat)
    requires 0 < k <= |a| && k <= |b|
    ensures Dot(a, b, k) == Dot(a, b, k - 1) + Product(a[k - 1], b[k - 1])
  {
  }

  lemma FitTimes(m: real, b: real, d: real, y: real, r: real)
    requires r == y - Fit(m, b, 1.0, d)
    ensures Product(r, d) == Product(y, d) - Fit(m, b, d, Product(d, d))
  {
    assert Fit(m, b, d, d * d) == Fit(m, b, 1.0, d) * d;
  }

  /** r is what the line with mean m and slope b leaves of y. */
  ghost predicate IsRemainder(y: seq<real>, m: real, b: real, r: seq<real>) {
    |r| == |y| && forall i :: 0 <= i < |r| ==> r[i] == y[i] - Fit(m, b, 1.0, Deviations(|y|)[i])
  }

  lemma {:induction false} RemainderPrefix(y: seq<real>, m: real, b: real, r: seq<real>, k: nat)
    requires IsRemainder(y, m, b, r) && k <= |y|
    ensures Prefix(r, k) == Prefix(y, k) - Fit(m, b, k as real, Prefix(Deviations(|y|), k))
  {
    var d := Deviations(|y|);
    if k == 0 {
      assert Fit(m, b, 0.0, 0.0) == 0.0;
    } else {
      RemainderPrefix(y, m, b, r, k - 1);
      FitAdds(m, b, (k - 1) as real, 1.0, Prefix(d, k - 1), d[k - 1]);
      assert Prefix(d, k) == Prefix(d, k - 1) + d[k - 1];
      hide Fit, Deviations;
    }
  }

  lemma {:induction false} RemainderDot(y: seq<real>, m: real, b: real, r: seq<real>, k: nat)
    requires IsRemainder(y, m, b, r) && k <= |y|
    ensures var d := Deviations(|y|); Dot(r, d, k) == Dot(y, d, k) - Fit(m, b, Prefix(d, k), Dot(d, d, k))
  {
    var d := Deviations(|y|);
    if k == 0 {
      assert Fit(m, b, 0.0, 0.0) == 0.0;
    } else {
      RemainderDot(y, m, b, r, k - 1);
      DotStep(r, d, k);
      DotStep(y, d, k);
      DotStep(d, d, k);
      hide Fit, Deviations, Dot, Product;
      FitTimes(m, b, d[k - 1], y[k - 1], r[k - 1]);
      FitAdds(m, b, Prefix(d, k - 1), d[k - 1], Dot(d, d, k - 1), Product(d[k - 1], d[k - 1]));
    }
  }

  lemma {:induction false} MomentFromDeviations(r: seq<real>, k: nat)
    requires k <= |r|
    ensures Moment(r, k) == Dot(r, Deviations(|r|), k) + Product((|r| as real - 1.0) / 2.0, Prefix(r, k))
  {
    if k > 0 {
      MomentFromDeviations(r, k - 1);
      MomentStep(r, k);
      DistributeMean(r[k - 1], (|r| as real - 1.0) / 2.0, k - 1, Prefix(r, k - 1));
      hide Moment, AtTime;
    }
  }

  lemma DistributeMean(r: real, c: real, i: nat, p: real)
    ensures AtTime(r, i) == r * (i as real - c) + c * r
    ensures c * (p + r) == c * p + c * r
  {
  }

  lemma LineThroughMean(y: seq<real>)
    requires 2 <= |y|
    ensures IsRemainder(y, Mean(y), Slope(y), Residuals(y, Intercept(y), Slope(y)))
  {
    var m, b, c := Mean(y), Slope(y), (|y| as real - 1.0) / 2.0;
    assert Intercept(y) == m - b * c;
    hide Slope, Mean, Intercept;
    forall i | 0 <= i < |y| ensures Residuals(y, Intercept(y), b)[i] == y[i] - Fit(m, b, 1.0, Deviations(|y|)[i]) {
      LineAt(m, b, c, i as real, Deviations(|y|)[i]);
    }
  }

  lemma LineAt(m: real, b: real, c: real, x: real, d: real)
    requires d == x - c
    ensures m - b * c + b * x == Fit(m, b, 1.0, d)
  {
  }

  lemma QuotientTimes(x: real, d: real)
    requires d != 0.0
    ensures x / d * d == x
  {
  }

  lemma {:induction false} DotCommutes(a: seq<real>, b: seq<real>, k: nat)
    requires k <= |a| && k <= |b|
    ensures Dot(a, b, k) == Dot(b, a, k)
  {
    if k > 0 {
      DotCommutes(a, b, k - 1);
      DotStep(a, b, k);
      DotStep(b, a, k);
    }
  }

  lemma SlopeTimesSpread(y: seq<real>)
    requires |y| >= 2
    ensures Product(Slope(y), Dot(Deviations(|y|), Deviations(|y|), |y|)) == Dot(y, Deviations(|y|), |y|)
  {
    SpreadIsPositive(|y|);
    DotCommutes(y, Deviations(|y|), |y|);
    hide Dot;
    QuotientTimes(Dot(Deviations(|y|), y, |y|), Dot(Deviations(|y|), Deviations(|y|), |y|));
  }

  lemma FitVanishes(m: real, b: real, p: real, q: real)
    ensures Fit(m, b, p, 0.0) == Product(m, p) && Fit(m, b, 0.0, q) == Product(b, q) && Product(m, 0.0) == 0.0
  {
  }

  lemma RemainderIsNormal(y: seq<real>, m: real, b: real, r: seq<real>)
    requires IsRemainder(y, m, b, r)
    requires Product(m, |y| as real) == Prefix(y, |y|)
    requires Product(b, Dot(Deviations(|y|), Deviations(|y|), |y|)) == Dot(y, Deviations(|y|), |y|)
    ensures Prefix(r, |y|) == 0.0 && Moment(r, |y|) == 0.0
  {
    var n, d := |y|, Deviations(|y|);
    DeviationPrefix(n, n);
    assert Prefix(d, n) == 0.0;
    hide Prefix, Dot, Moment, Deviations, Fit, Product, IsRemainder;
    RemainderPrefix(y, m, b, r, n);
    RemainderDot(y, m, b, r, n);
    FitVanishes(m, b, n as real, Dot(d, d, n));
    MomentFromDeviations(r, n);
    FitVanishes((n as real - 1.0) / 2.0, b, 0.0, 0.0);
  }

  /** The slope and the intercept solve both normal equations. */
  lemma NormalEquations(y: seq<real>)
    requires |y| >= 2
    ensures var r := Residuals(y, Intercept(y), Slope(y)); Prefix(r, |y|) == 0.0 && Moment(r, |y|) == 0.0
  {
    LineThroughMean(y);
    MeanTimesCount(y);
    SlopeTimesSpread(y);
    hide Prefix, Dot, Moment, Slope, Intercept, Mean, IsRemainder, Deviations, Residuals;
    RemainderIsNormal(y, Mean(y), Slope(y), Residuals(y, Intercept(y), Slope(y)));
  }

  lemma MeanTimesCount(y: seq<real>)
    requires y != []
    ensures Product(Mean(y), |y| as real) == Prefix(y, |y|)
  {
    QuotientTimes(Prefix(y, |y|), |y| as real);
  }

  /** No other line has a smaller squared error over the samples. */
  lemma {:induction false} SlopeIsLeastSquares(y: seq<real>, a: real, b: real)
    requires |y| >= 2
    ensures SquareSum(Residuals(y, Intercept(y), Slope(y)), |y|) <= SquareSum(Residuals(y, a, b), |y|)
  {
    var u, v := Intercept(y) - a, Slope(y) - b;
    NormalEquations(y);
    MovedLine(y, Intercept(y), Slope(y), u, v, |y|);
    assert Cross(u, v, 0.0, 0.0) == 0.0;
    hide Slope, Intercept, Residuals, Moment, Cross;
    assert Slope(y) - v == b && Intercept(y) - u == a;
  }

  /** The line a + b * t leaves the least squared error over the samples. */
  ghost predicate IsBestLine(y: seq<real>, a: real, b: real) {
    forall u, v :: SquareSum(Residuals(y, a, b), |y|) <= SquareSum(Residuals(y, u, v), |y|)
  }

  lemma {:induction false} LineSquaresAtLeast(u: real, v: real, k: nat)
    requires k >= 2
    ensures Square(u) + Square(u + v) <= LineSquares(u, v, k)
  {
    if k == 2 {
      assert LineSquares(u, v, 1) == LineSquares(u, v, 0) + Square(Line(u, v, 0));
      assert Line(u, v, 0) == u && Line(u, v, 1) == u + v;
    } else {
      LineSquaresAtLeast(u, v, k - 1);
    }
  }

  lemma SquareIsZero(x: real)
    requires Square(x) <= 0.0
    ensures x == 0.0
  {
    if x > 0.0 { ProductSign(x, x, Square(x)); }
    if x < 0.0 { ProductSign(-x, -x, Square(x)); }
  }

  /** There is one best line, and its slope is the slope. */
  lemma {:induction false} BestLineIsUnique(y: seq<real>, a: real, b: real)
    requires |y| >= 2 && IsBestLine(y, a, b)
    ensures b == Slope(y) && a == Intercept(y)
  {
    var u, v := Intercept(y) - a, Slope(y) - b;
    NormalEquations(y);
    MovedLine(y, Intercept(y), Slope(y), u, v, |y|);
    assert Cross(u, v, 0.0, 0.0) == 0.0;
    hide Slope, Intercept, Residuals, Moment, Cross;
    assert Slope(y) - v == b && Intercept(y) - u == a;
    assert SquareSum(Residuals(y, a, b), |y|) <= SquareSum(Residuals(y, Intercept(y), Slope(y)), |y|);
    LineSquaresAtLeast(u, v, |y|);
    SquareIsZero(u);
    SquareIsZero(u + v);
  }

  // ---------------------------------------------------------------- a load that does not grow

  lemma {:induction false} DotOfNegations(a: seq<real>, b: seq<real>, c: seq<real>, d: seq<real>, k: nat)
    requires |a| == |b| == |c| == |d| && k <= |a|
    requires forall i :: 0 <= i < |a| ==> c[i] == -a[i] && d[i] == -b[i]
    ensures Dot(c, d, k) == Dot(a, b, k)
  {
    if k > 0 {
      DotOfNegations(a, b, c, d, k - 1);
      assert c[k - 1] * d[k - 1] == a[k - 1] * b[k - 1];
    }
  }

  lemma {:induction false} PrefixOfNegation(a: seq<real>, c: seq<real>, k: nat)
    requires |a| == |c| && k <= |a|
    requires forall i :: 0 <= i < |a| ==> c[i] == -a[i]
    ensures Prefix(c, k) == -Prefix(a, k)
  {
    if k > 0 { PrefixOfNegation(a, c, k - 1); }
  }

  lemma HalfNegated(a: real, b: real)
    ensures -a * b / 2.0 == -(a * b) / 2.0
  {
  }

  lemma DeviationSign(n: nat, k: nat)
    requires k <= n
    ensures Prefix(Deviations(n), k) <= 0.0
  {
    DeviationPrefix(n, k);
    hide Prefix, Deviations;
    var a, b := k as real, n as real - k as real;
    HalfNegated(a, b);
    ProductSign(a, b, a * b);
  }

  /** A window that never rises has no positive slope. */
  lemma {:induction false} FallingHasNoGrowth(y: seq<real>)
    requires |y| >= 2 && NonIncreasing(y)
    ensures Slope(y) <= 0.0
  {
    var n, d := |y|, Deviations(|y|);
    var r := seq(n, i requires 0 <= i < n => -d[i]);
    var z := seq(n, i requires 0 <= i < n => -y[i]);
    forall k | 0 <= k <= n ensures Prefix(r, k) >= 0.0 {
      PrefixOfNegation(d, r, k);
      DeviationSign(n, k);
    }
    PrefixOfNegation(d, r, n);
    DeviationPrefix(n, n);
    AbelNonPositive(r, z);
    DotOfNegations(d, y, r, z, n);
    SpreadIsPositive(n);
    DivMono(Dot(d, y, n), 0.0, Dot(d, d, n));
  }

  // ---------------------------------------------------------------- the factor

  datatype Factor = Factor(value: real) | ZeroBaseline

  function Clamp(x: real, cap: real): real {
    var y := if x < 1.0 then 1.0 else x;
    if cap < y then cap else y
  }

  /** The load expected after the lead, relative to now. */
  function Projected(baseline: real, slope: real, lead: real): real
    requires baseline != 0.0
  {
    (baseline + slope * lead) / baseline
  }

  /** How much the load grows until a decision taken now becomes effective. */
  function AnticipationFactor(signal: seq<Sample>, lead: real, cap: real, significant: real): Factor {
    var recent := Recent(signal);
    if |recent| < 3 then Factor(1.0)
    else
      var baseline := Median(recent);
      if baseline < significant then Factor(1.0)
      else if Slope(recent) <= 0.0 then Factor(1.0)
      else if baseline == 0.0 then ZeroBaseline
      else Factor(Clamp(Projected(baseline, Slope(recent), lead), cap))
  }

  /** The request rate when it is known, else the mean CPU; no anticipation at all with a cap of one. */
  function LoadAnticipation(rate: Option<seq<Sample>>, cpu: Option<seq<Sample>>, lead: real, cap: real,
                            minRate: real, minCpu: real): Factor {
    if cap <= 1.0 then Factor(1.0)
    else if rate.Some? then AnticipationFactor(rate.value, lead, cap, minRate)
    else if cpu.Some? then AnticipationFactor(cpu.value, lead, cap, minCpu)
    else Factor(1.0)
  }

  /** The projection divides by a baseline of zero exactly when a threshold of zero or less lets one
      through and the load grows. */
  lemma {:induction false} ZeroBaselineIff(signal: seq<Sample>, lead: real, cap: real, significant: real)
    ensures AnticipationFactor(signal, lead, cap, significant) == ZeroBaseline <==>
            |Recent(signal)| >= 3 && Median(Recent(signal)) == 0.0 && significant <= 0.0 && Slope(Recent(signal)) > 0.0
  {
    hide Slope, Median, Recent, Projected, Clamp;
  }

  /** Idle but for its last minute: such a load ends the forecaster when the threshold is zero. */
  lemma {:induction false} ZeroBaselineHappens(lead: real, cap: real)
    ensures var idle := Finite(0.0);
            AnticipationFactor([idle, idle, idle, idle, Finite(1.0)], lead, cap, 0.0) == ZeroBaseline
  {
    var idle := Finite(0.0);
    var signal := [idle, idle, idle, idle, Finite(1.0)];
    var y := [0.0, 0.0, 0.0, 0.0, 1.0];
    assert FiniteValues(signal) == y by { FiniteOfFive(0.0, 0.0, 0.0, 0.0, 1.0); }
    assert Recent(signal) == y;
    assert Median(y) == 0.0 by { AscendingOfSpike(); }
    SlopeOfSpike();
    hide Slope, Median, Recent;
    ZeroBaselineIff(signal, lead, cap, 0.0);
  }

  lemma FiniteOfOneMore(v: real, rest: seq<Sample>)
    ensures FiniteValues([Finite(v)] + rest) == [v] + FiniteValues(rest)
  {
    assert ([Finite(v)] + rest)[1..] == rest;
  }

  lemma FiniteOfFive(a: real, b: real, c: real, d: real, e: real)
    ensures FiniteValues([Finite(a), Finite(b), Finite(c), Finite(d), Finite(e)]) == [a, b, c, d, e]
  {
    hide FiniteValues;
    FiniteOfOneMore(a, [Finite(b), Finite(c), Finite(d), Finite(e)]);
    FiniteOfOneMore(b, [Finite(c), Finite(d), Finite(e)]);
    FiniteOfOneMore(c, [Finite(d), Finite(e)]);
    FiniteOfOneMore(d, [Finite(e)]);
    FiniteOfOneMore(e, []);
    assert FiniteValues([]) == [] by { NoFiniteValues(); }
    assert [Finite(a)] + [Finite(b), Finite(c), Finite(d), Finite(e)]
      == [Finite(a), Finite(b), Finite(c), Finite(d), Finite(e)];
    assert [Finite(b)] + [Finite(c), Finite(d), Finite(e)] == [Finite(b), Finite(c), Finite(d), Finite(e)];
    assert [Finite(c)] + [Finite(d), Finite(e)] == [Finite(c), Finite(d), Finite(e)];
    assert [Finite(d)] + [Finite(e)] == [Finite(d), Finite(e)];
    assert [Finite(e)] + [] == [Finite(e)];
  }

  lemma NoFiniteValues()
    ensures FiniteValues([]) == []
  {
  }

  lemma AscendingOfSpike()
    ensures Median([0.0, 0.0, 0.0, 0.0, 1.0]) == 0.0
  {
    var s := [0.0, 0.0, 0.0, 0.0, 1.0];
    AscendingSorts(s);
    assert Ascending(s)[2] == 0.0;
  }

  lemma SlopeOfSpike()
    ensures Slope([0.0, 0.0, 0.0, 0.0, 1.0]) > 0.0
  {
    var y := [0.0, 0.0, 0.0, 0.0, 1.0];
    var d := Deviations(5);
    SpreadIsPositive(5);
    assert d[4] == 2.0;
    assert Dot(d, y, 4) == 0.0 by { DotOfZeros(d, y, 4); }
    assert Dot(d, y, 5) == 2.0;
    assert Slope(y) == 2.0 / Dot(d, d, 5);
  }

  lemma {:induction false} DotOfZeros(a: seq<real>, y: seq<real>, k: nat)
    requires k <= |a| && k <= |y| && forall i :: 0 <= i < k ==> y[i] == 0.0
    ensures Dot(a, y, k) == 0.0
  {
    if k > 0 { DotOfZeros(a, y, k - 1); }
  }

  /** Which signal is read, and its threshold. */
  predicate Reads(rate: Option<seq<Sample>>, cpu: Option<seq<Sample>>, minRate: real, minCpu: real,
                  signal: seq<Sample>, significant: real) {
    if rate.Some? then signal == rate.value && significant == minRate
    else cpu == Some(signal) && significant == minCpu
  }

  /** The factor lies between one and the cap, or the division by zero of the signal that is read ends
      the computation. */
  lemma {:induction false} LoadAnticipationInRange(
    rate: Option<seq<Sample>>, cpu: Option<seq<Sample>>, lead: real, cap: real, minRate: real, minCpu: real)
    ensures var f := LoadAnticipation(rate, cpu, lead, cap, minRate, minCpu);
            && (f.Factor? ==> f.value >= 1.0 && (f.value == 1.0 || f.value <= cap))
            && (f == ZeroBaseline <==>
                  && cap > 1.0
                  && exists signal, significant :: Reads(rate, cpu, minRate, minCpu, signal, significant)
                                                  && AnticipationFactor(signal, lead, cap, significant) == ZeroBaseline)
  {
    hide Slope, Median, Recent;
    if cap > 1.0 {
      if rate.Some? {
        assert Reads(rate, cpu, minRate, minCpu, rate.value, minRate);
      } else if cpu.Some? {
        assert Reads(rate, cpu, minRate, minCpu, cpu.value, minCpu);
      }
    }
  }

  /** growth is a share of the baseline. */
  lemma RatioAgainstOne(baseline: real, growth: real)
    requires baseline != 0.0
    ensures (baseline + growth) / baseline > 1.0 <==>
            (baseline > 0.0 && growth > 0.0) || (baseline < 0.0 && growth < 0.0)
  {
    var q := (baseline + growth) / baseline;
    assert q * baseline == baseline + growth;
    if baseline > 0.0 {
      ProductAgainst(q, 1.0, baseline);
    } else {
      assert q * -baseline == -(baseline + growth);
      ProductAgainst(q, 1.0, -baseline);
    }
  }

  lemma GrowthSign(slope: real, lead: real)
    requires slope > 0.0
    ensures (slope * lead > 0.0 <==> lead > 0.0) && (slope * lead < 0.0 <==> lead < 0.0)
  {
  }

  lemma ProjectionGrowsIff(baseline: real, slope: real, lead: real, cap: real)
    requires baseline != 0.0 && slope > 0.0
    ensures Clamp(Projected(baseline, slope, lead), cap) > 1.0 <==>
            cap > 1.0 && ((baseline > 0.0 && lead > 0.0) || (baseline < 0.0 && lead < 0.0))
  {
    GrowthSign(slope, lead);
    var growth := slope * lead;
    RatioAgainstOne(baseline, growth);
  }

  /** The load is anticipated exactly when the cap allows it, at least three recent samples are finite,
      their median reaches the threshold, their slope is positive, and lead and median have one sign. */
  lemma {:induction false} AnticipatesIff(signal: seq<Sample>, lead: real, cap: real, significant: real)
    ensures var f := AnticipationFactor(signal, lead, cap, significant);
            (f.Factor? && f.value > 1.0) <==>
              && cap > 1.0 && |Recent(signal)| >= 3
              && Median(Recent(signal)) >= significant && Slope(Recent(signal)) > 0.0
              && var m := Median(Recent(signal)); (m > 0.0 && lead > 0.0) || (m < 0.0 && lead < 0.0)
  {
    hide Slope, Median, Recent, Projected, Clamp;
    if |Recent(signal)| >= 3 && Slope(Recent(signal)) > 0.0 && Median(Recent(signal)) != 0.0 {
      ProjectionGrowsIff(Median(Recent(signal)), Slope(Recent(signal)), lead, cap);
    }
  }

  lemma ProjectedTimes(baseline: real, slope: real, lead: real, cap: real)
    requires baseline != 0.0 && Clamp(Projected(baseline, slope, lead), cap) > 1.0
    ensures var f := Clamp(Projected(baseline, slope, lead), cap);
            && f <= cap && (f < cap ==> f * baseline == baseline + slope * lead)
            && (f == cap && baseline > 0.0 ==> cap * baseline <= baseline + slope * lead)
            && (f == cap && baseline < 0.0 ==> cap * baseline >= baseline + slope * lead)
  {
    var q := Projected(baseline, slope, lead);
    assert q * baseline == baseline + slope * lead;
    hide Projected;
    if q >= cap {
      if baseline > 0.0 { ProductAgainst(q, cap, baseline); } else { ProductAgainst(q, cap, -baseline); }
    }
  }

  /** A factor above one is the growth of the load over the lead along the best line through the window,
      relative to the median: it multiplies the median by as much as the line rises. The cap is taken
      where the line rises further. */
  lemma {:induction false} FactorIsGrowth(signal: seq<Sample>, lead: real, cap: real, significant: real, a: real,
                                          b: real)
    requires |Recent(signal)| >= 2 && IsBestLine(Recent(signal), a, b)
    ensures var f, m := AnticipationFactor(signal, lead, cap, significant), Median(Recent(signal));
            f.Factor? && f.value > 1.0 ==>
              && f.value <= cap && (f.value < cap ==> f.value * m == m + b * lead)
              && (f.value == cap && m > 0.0 ==> cap * m <= m + b * lead)
              && (f.value == cap && m < 0.0 ==> cap * m >= m + b * lead)
  {
    var f, m := AnticipationFactor(signal, lead, cap, significant), Median(Recent(signal));
    BestLineIsUnique(Recent(signal), a, b);
    hide Slope, Median, Recent, Projected, Clamp, IsBestLine;
    if f.Factor? && f.value > 1.0 { ProjectedTimes(m, b, lead, cap); }
  }

  /** A load that does not rise over the window is never anticipated. */
  lemma {:induction false} FallingIsNotAnticipated(signal: seq<Sample>, lead: real, cap: real, significant: real)
    requires NonIncreasing(Recent(signal))
    ensures AnticipationFactor(signal, lead, cap, significant) == Factor(1.0)
  {
    if |Recent(signal)| >= 3 { FallingHasNoGrowth(Recent(signal)); }
    hide Slope, Median, Recent;
  }

  /** Whatever the load signal and the thresholds: a factor that exists never lowers the verdict, over all
      bands, exactly when it leaves no fewer cores in use; and so it does for the learned models, and for
      the naive one without negative means. */
  lemma {:induction false} AnticipationIsSafe(
    raw: seq<Load>, rate: Option<seq<Sample>>, cpu: Option<seq<Sample>>, lead: real, cap: real,
    minRate: real, minCpu: real, learned: bool)
    requires PositiveCores(raw)
    ensures var f := LoadAnticipation(rate, cpu, lead, cap, minRate, minCpu);
            f.Factor? ==>
              var plain, boosted := BoostAll(raw, 1.0, learned), BoostAll(raw, f.value, learned);
              && ((forall min, max :: IsNotLowered(plain, boosted, min, max)) <==> Used(plain) <= Used(boosted))
              && (learned || (forall i :: 0 <= i < |raw| ==> raw[i].percent >= 0.0) ==>
                    forall min, max :: IsNotLowered(plain, boosted, min, max))
  {
    LoadAnticipationInRange(rate, cpu, lead, cap, minRate, minCpu);
    hide LoadAnticipation, IsNotLowered, BoostAll, Used, PositiveCores;
    var f := LoadAnticipation(rate, cpu, lead, cap, minRate, minCpu);
    if f.Factor? {
      AnticipationNeverLowersIff(raw, f.value, learned);
      if learned || forall i :: 0 <= i < |raw| ==> raw[i].percent >= 0.0 { BoostUsesMore(raw, f.value, learned); }
    }
  }
}
