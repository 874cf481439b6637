/** The Pool Adjacent Violators loop of the power-curve estimator, and what it computes. */
module Isotonic {
  import opened Sums

  // ---------------------------------------------------------------- reference definitions

  /** Squared distance over the first k positions. */
  function SquaredError(a: seq<real>, b: seq<real>, k: nat): (e: real)
    requires k <= |a| && k <= |b|
    ensures e >= 0.0
  {
    if k == 0 then 0.0
    else SquaredError(a, b, k - 1) + Square(a[k - 1] - b[k - 1])
  }

  /** m added up n times. */
  function Times(m: real, n: nat): real {
    if n == 0 then 0.0 else Times(m, n - 1) + m
  }

  /** f is a non-decreasing sequence strictly closer to v than every other one. */
  ghost predicate IsLeastSquaresFit(v: seq<real>, f: seq<real>) {
    && |f| == |v| && NonDecreasing(f)
    && forall z: seq<real> :: |z| == |v| && NonDecreasing(z) && z != f ==>
         SquaredError(v, f, |v|) < SquaredError(v, z, |v|)
  }

  /** Mean of v[a..b]. */
  function Mean(v: seq<real>, a: nat, b: nat): real
    requires a < b <= |v|
  {
    (Prefix(v, b) - Prefix(v, a)) / (b - a) as real
  }

  /** Least mean of v[a..e] over the ends e >= b. */
  function MinMean(v: seq<real>, a: nat, b: nat): real
    requires a < b <= |v|
    decreases |v| - b
  {
    if b == |v| then Mean(v, a, b)
    else if Mean(v, a, b) <= MinMean(v, a, b + 1) then Mean(v, a, b) else MinMean(v, a, b + 1)
  }

  /** Least mean of the windows that start at a and reach past i. */
  function LeastPast(v: seq<real>, a: nat, i: nat): real
    requires a <= i < |v|
  {
    MinMean(v, a, i + 1)
  }

  /** Greatest, over the starts a' <= a, of the least mean of the windows from a' that reach
      past i. */
  function MaxMinMean(v: seq<real>, a: nat, i: nat): real
    requires a <= i < |v|
    decreases a
  {
    if a == 0 then LeastPast(v, 0, i)
    else if LeastPast(v, a, i) >= MaxMinMean(v, a - 1, i) then LeastPast(v, a, i)
    else MaxMinMean(v, a - 1, i)
  }

  /** The max-min formula of isotonic regression, position by position. */
  function IsotonicFit(v: seq<real>): (f: seq<real>)
    ensures |f| == |v|
  {
    seq(|v|, i requires 0 <= i < |v| => MaxMinMean(v, i, i))
  }

  // ---------------------------------------------------------------- the stack of pooled blocks

  /** v[lo..hi] may be replaced by the constant m: same total, and every prefix sum stays at
      least as large as that of the constant. */
  ghost predicate IsBlock(v: seq<real>, lo: nat, hi: nat, m: real) {
    && lo < hi <= |v|
    && Prefix(v, hi) - Prefix(v, lo) == Times(m, hi - lo)
    && forall k :: lo <= k <= hi ==> Prefix(v, k) - Prefix(v, lo) >= Times(m, k - lo)
  }

  /** The two stacks, top at the end, cut v[..hi] into blocks. */
  ghost predicate Pooled(v: seq<real>, fitted: seq<real>, weights: seq<nat>, hi: nat) {
    && |fitted| == |weights| && hi <= |v|
    && if fitted == [] then hi == 0
       else
         var top := |fitted| - 1;
         && 1 <= weights[top] <= hi
         && IsBlock(v, hi - weights[top], hi, fitted[top])
         && Pooled(v, fitted[..top], weights[..top], hi - weights[top])
  }

  function Repeat(x: real, n: nat): (s: seq<real>)
    ensures |s| == n && forall i :: 0 <= i < n ==> s[i] == x
  {
    seq(n, _ => x)
  }

  /** Every stacked value repeated by its weight. */
  function Expand(fitted: seq<real>, weights: seq<nat>): seq<real>
    requires |fitted| == |weights|
  {
    if fitted == [] then []
    else
      var top := |fitted| - 1;
      Expand(fitted[..top], weights[..top]) + Repeat(fitted[top], weights[top])
  }

  lemma {:induction false} TimesIsProduct(m: real, n: nat)
    ensures Times(m, n) == m * n as real
  {
    if n > 0 { TimesIsProduct(m, n - 1); }
  }

  lemma {:induction false} TimesSplit(m: real, p: nat, q: nat)
    ensures Times(m, p + q) == Times(m, p) + Times(m, q)
  {
    if q > 0 { TimesSplit(m, p, q - 1); }
  }

  lemma {:induction false} TimesMono(a: real, b: real, n: nat)
    requires a <= b
    ensures Times(a, n) <= Times(b, n)
  {
    if n > 0 { TimesMono(a, b, n - 1); }
  }

  /** The weighted mean of two blocks: it has their total, and lies between them. */
  function PooledMean(a: real, p: nat, b: real, q: nat): real
    requires p + q > 0
  {
    (a * p as real + b * q as real) / (p + q) as real
  }

  lemma WeightedMeanBetween(a: real, p: real, b: real, q: real, m: real)
    requires p > 0.0 && q > 0.0 && b <= a && m == (a * p + b * q) / (p + q)
    ensures b <= m <= a
    ensures m * (p + q) == a * p + b * q
  {
    MulMono(p, b, a);
    MulMono(q, b, a);
    DivMono(b * (p + q), a * p + b * q, p + q);
    DivMono(a * p + b * q, a * (p + q), p + q);
  }

  lemma PooledMeanBetween(a: real, p: nat, b: real, q: nat)
    requires p > 0 && q > 0 && b <= a
    ensures b <= PooledMean(a, p, b, q) <= a
    ensures Times(PooledMean(a, p, b, q), p + q) == Times(a, p) + Times(b, q)
  {
    var m := PooledMean(a, p, b, q);
    TimesIsProduct(m, p + q);
    TimesIsProduct(a, p);
    TimesIsProduct(b, q);
    WeightedMeanBetween(a, p as real, b, q as real, m);
  }

  lemma SingletonBlock(v: seq<real>, i: nat)
    requires i < |v|
    ensures IsBlock(v, i, i + 1, v[i])
  {
    assert Prefix(v, i + 1) == Prefix(v, i) + v[i];
    assert Times(v[i], 1) == Times(v[i], 0) + v[i];
  }

  /** Two adjacent blocks in the wrong order pool into one. */
  lemma MergeBlocks(v: seq<real>, lo: nat, mid: nat, hi: nat, a: real, b: real)
    requires IsBlock(v, lo, mid, a) && IsBlock(v, mid, hi, b) && a > b
    ensures IsBlock(v, lo, hi, PooledMean(a, mid - lo, b, hi - mid))
  {
    var m := PooledMean(a, mid - lo, b, hi - mid);
    PooledMeanBetween(a, mid - lo, b, hi - mid);
    forall k | lo <= k <= hi
      ensures Prefix(v, k) - Prefix(v, lo) >= Times(m, k - lo)
    {
      if k <= mid {
        TimesMono(m, a, k - lo);
      } else {
        TimesMono(b, m, hi - k);
        TimesSplit(b, k - mid, hi - k);
        TimesSplit(m, k - lo, hi - k);
      }
    }
  }

  // ---------------------------------------------------------------- optimality certificate

  /** What the pooled blocks establish: the prefix sums of f never exceed those of v, and meet
      them at the end and wherever f moves. */
  ghost predicate IsCertified(v: seq<real>, f: seq<real>, hi: nat) {
    && |f| == hi <= |v| && NonDecreasing(f)
    && (forall k :: 0 <= k <= hi ==> Prefix(v, k) >= Prefix(f, k))
    && Prefix(v, hi) == Prefix(f, hi)
    && forall k :: 0 < k < hi && f[k - 1] != f[k] ==> Prefix(v, k) == Prefix(f, k)
  }

  lemma {:induction false} RepeatTail(e: seq<real>, x: real, n: nat, k: nat)
    requires k <= n
    ensures Prefix(e + Repeat(x, n), |e| + k) == Prefix(e, |e|) + Times(x, k)
  {
    var s := e + Repeat(x, n);
    if k == 0 {
      assert s[..|e|] == e;
      PrefixOfExtension(e, s, |e|);
    } else {
      RepeatTail(e, x, n, k - 1);
      assert s[|e| + k - 1] == x;
    }
  }

  lemma RunPrefix(e: seq<real>, m: real, n: nat, k: nat)
    requires k <= |e| + n
    ensures Prefix(e + Repeat(m, n), k) == if k <= |e| then Prefix(e, k) else Prefix(e, |e|) + Times(m, k - |e|)
  {
    var f := e + Repeat(m, n);
    assert f[..|e|] == e;
    if k <= |e| { PrefixOfExtension(e, f, k); } else { RepeatTail(e, m, n, k - |e|); }
  }

  lemma AppendedPrefix(v: seq<real>, e: seq<real>, lo: nat, hi: nat, m: real, k: nat)
    requires |e| == lo < hi <= |v| && Prefix(e, lo) == Prefix(v, lo) && k <= hi
    ensures Prefix(e + Repeat(m, hi - lo), k)
         == if k <= lo then Prefix(e, k) else Prefix(v, lo) + Times(m, k - lo)
  {
    RunPrefix(e, m, hi - lo, k);
  }

  lemma AppendedAscends(e: seq<real>, m: real, n: nat)
    requires NonDecreasing(e) && (e != [] ==> e[|e| - 1] <= m)
    ensures NonDecreasing(e + Repeat(m, n))
  {
    var f := e + Repeat(m, n);
    forall i, j | 0 <= i <= j < |f| ensures f[i] <= f[j] {
      if i < |e| { assert e[i] <= e[|e| - 1]; }
    }
  }

  /** Putting one more block behind a certified fit keeps it certified. */
  lemma AppendRun(v: seq<real>, e: seq<real>, lo: nat, hi: nat, m: real)
    requires IsCertified(v, e, lo) && IsBlock(v, lo, hi, m)
    requires lo > 0 ==> e[lo - 1] <= m
    ensures IsCertified(v, e + Repeat(m, hi - lo), hi)
  {
    var f := e + Repeat(m, hi - lo);
    AppendedAscends(e, m, hi - lo);
    hide Prefix, Times, NonDecreasing;
    forall k | 0 <= k <= hi
      ensures Prefix(f, k) == if k <= lo then Prefix(e, k) else Prefix(v, lo) + Times(m, k - lo)
    {
      AppendedPrefix(v, e, lo, hi, m, k);
    }
    forall k | 0 <= k <= hi ensures Prefix(v, k) >= Prefix(f, k) {
      if k <= lo { assert Prefix(v, k) >= Prefix(e, k); }
    }
    forall k | 0 < k < hi && f[k - 1] != f[k] ensures Prefix(v, k) == Prefix(f, k) {
      if k < lo { assert e[k - 1] != e[k]; }
    }
  }

  lemma ExpandStep(fitted: seq<real>, weights: seq<nat>)
    requires |fitted| == |weights| && fitted != []
    ensures var top := |fitted| - 1;
            Expand(fitted, weights) == Expand(fitted[..top], weights[..top]) + Repeat(fitted[top], weights[top])
  {
  }

  lemma PooledTop(v: seq<real>, fitted: seq<real>, weights: seq<nat>, hi: nat)
    requires Pooled(v, fitted, weights, hi) && fitted != []
    ensures var top := |fitted| - 1;
            && 1 <= weights[top] <= hi && IsBlock(v, hi - weights[top], hi, fitted[top])
            && Pooled(v, fitted[..top], weights[..top], hi - weights[top])
  {
    hide IsBlock;
  }

  lemma PooledEmpty(v: seq<real>, fitted: seq<real>, weights: seq<nat>, hi: nat)
    requires Pooled(v, fitted, weights, hi)
    ensures |fitted| == |weights| && (fitted == [] ==> hi == 0)
    ensures fitted == [] ==> IsCertified(v, Expand(fitted, weights), hi)
  {
  }

  lemma {:induction false} PooledIsCertified(v: seq<real>, fitted: seq<real>, weights: seq<nat>, hi: nat)
    requires Pooled(v, fitted, weights, hi) && NonDecreasing(fitted)
    ensures |fitted| == |weights| && IsCertified(v, Expand(fitted, weights), hi)
    ensures |Expand(fitted, weights)| == hi
    ensures hi > 0 ==> fitted != [] && Expand(fitted, weights)[hi - 1] == fitted[|fitted| - 1]
    decreases |fitted|
  {
    PooledEmpty(v, fitted, weights, hi);
    if fitted != [] {
      var top := |fitted| - 1;
      PooledTop(v, fitted, weights, hi);
      var lo := hi - weights[top];
      ExpandStep(fitted, weights);
      assert NonDecreasing(fitted[..top]);
      assert top > 0 ==> fitted[top - 1] <= fitted[top];
      hide Pooled, IsBlock, IsCertified, Expand, NonDecreasing;
      PooledIsCertified(v, fitted[..top], weights[..top], lo);
      AppendRun(v, Expand(fitted[..top], weights[..top]), lo, hi, fitted[top]);
    } else {
      CertifiedLength(v, Expand(fitted, weights), hi);
    }
  }

  lemma CertifiedLength(v: seq<real>, f: seq<real>, hi: nat)
    requires IsCertified(v, f, hi)
    ensures |f| == hi
  {
  }

  // ---------------------------------------------------------------- the loop

  lemma PushSingleton(v: seq<real>, fitted: seq<real>, weights: seq<nat>, i: nat)
    requires i < |v| && Pooled(v, fitted, weights, i)
    ensures Pooled(v, fitted + [v[i]], weights + [1], i + 1)
  {
    SingletonBlock(v, i);
    assert (fitted + [v[i]])[..|fitted|] == fitted && (weights + [1])[..|fitted|] == weights;
  }

  lemma MergeTop(v: seq<real>, fitted: seq<real>, weights: seq<nat>, hi: nat)
    requires Pooled(v, fitted, weights, hi) && |fitted| >= 2
    requires fitted[|fitted| - 2] > fitted[|fitted| - 1]
    requires NonDecreasing(fitted[..|fitted| - 1])
    ensures |fitted| == |weights| && weights[|fitted| - 1] >= 1
    ensures var n := |fitted|;
            var pooled := PooledMean(fitted[n - 2], weights[n - 2], fitted[n - 1], weights[n - 1]);
            var stack := fitted[..n - 2] + [pooled];
            && Pooled(v, stack, weights[..n - 2] + [weights[n - 2] + weights[n - 1]], hi)
            && NonDecreasing(stack[..n - 2])
  {
    var n := |fitted|;
    var mid := hi - weights[n - 1];
    var below, belowWeights := fitted[..n - 1], weights[..n - 1];
    assert Pooled(v, below, belowWeights, mid);
    assert below[..n - 2] == fitted[..n - 2] && belowWeights[..n - 2] == weights[..n - 2];
    MergeBlocks(v, mid - weights[n - 2], mid, hi, fitted[n - 2], fitted[n - 1]);
    var pooled := PooledMean(fitted[n - 2], weights[n - 2], fitted[n - 1], weights[n - 1]);
    var stack, stackWeights := fitted[..n - 2] + [pooled], weights[..n - 2] + [weights[n - 2] + weights[n - 1]];
    assert stack[..n - 2] == fitted[..n - 2] && stackWeights[..n - 2] == weights[..n - 2];
  }

  lemma {:induction false} ExpandPrefix(fitted: seq<real>, weights: seq<nat>, j: nat)
    requires |fitted| == |weights| && j < |fitted|
    ensures Expand(fitted[..j + 1], weights[..j + 1])
         == Expand(fitted[..j], weights[..j]) + Repeat(fitted[j], weights[j])
  {
    assert fitted[..j + 1][..j] == fitted[..j] && weights[..j + 1][..j] == weights[..j];
  }

  lemma OrderedUpTo(fitted: seq<real>)
    requires |fitted| >= 2 ==> NonDecreasing(fitted[..|fitted| - 1]) && fitted[|fitted| - 2] <= fitted[|fitted| - 1]
    ensures NonDecreasing(fitted)
  {
    var n := |fitted|;
    forall a, b | 0 <= a <= b < n ensures fitted[a] <= fitted[b] {
      if a < b {
        assert fitted[..n - 1][a] <= fitted[..n - 1][if b < n - 1 then b else n - 2];
      }
    }
  }

  lemma PooledIsFit(v: seq<real>, fitted: seq<real>, weights: seq<nat>)
    requires Pooled(v, fitted, weights, |v|) && NonDecreasing(fitted)
    ensures var f := Expand(fitted, weights);
            f == IsotonicFit(v) && IsLeastSquaresFit(v, f) && Prefix(f, |f|) == Prefix(v, |v|)
  {
    PooledIsCertified(v, fitted, weights, |v|);
    CertifiedIsLeastSquares(v, Expand(fitted, weights));
    CertifiedIsMaxMin(v, Expand(fitted, weights));
  }

  method ExpandBlocks(fitted: seq<real>, weights: seq<nat>) returns (expanded: seq<real>)
    requires |fitted| == |weights|
    ensures expanded == Expand(fitted, weights)
  {
    expanded := [];
    for j := 0 to |fitted|
      invariant expanded == Expand(fitted[..j], weights[..j])
    {
      ExpandPrefix(fitted, weights, j);
      expanded := expanded + Repeat(fitted[j], weights[j]);
    }
    assert fitted[..|fitted|] == fitted && weights[..|fitted|] == weights;
  }

  /** Pool Adjacent Violators with equal weights. merges counts the pooling steps. */
  method IsotonicRegression(values: seq<real>) returns (expanded: seq<real>, ghost merges: nat)
    ensures expanded == IsotonicFit(values)
    ensures IsLeastSquaresFit(values, expanded)
    ensures Prefix(expanded, |expanded|) == Prefix(values, |values|)
    ensures values != [] ==> merges < |values|
  {
    hide Pooled, NonDecreasing, PooledMean, Prefix, IsotonicFit, IsLeastSquaresFit, Expand;
    var fitted: seq<real>, weights: seq<nat> := [], [];
    merges := 0;
    PooledNothing(values);
    for i := 0 to |values|
      invariant Pooled(values, fitted, weights, i) && NonDecreasing(fitted)
      invariant merges + |fitted| == i && (i > 0 ==> fitted != [])
    {
      PushSingleton(values, fitted, weights, i);
      assert (fitted + [values[i]])[..|fitted|] == fitted;
      fitted, weights := fitted + [values[i]], weights + [1];
      while |fitted| >= 2 && fitted[|fitted| - 2] > fitted[|fitted| - 1]
        invariant fitted != [] && Pooled(values, fitted, weights, i + 1)
        invariant NonDecreasing(fitted[..|fitted| - 1])
        invariant merges + |fitted| == i + 1
        decreases |fitted|
      {
        var n := |fitted|;
        PooledSizes(values, fitted, weights, i + 1);
        MergeTop(values, fitted, weights, i + 1);
        var pooled := PooledMean(fitted[n - 2], weights[n - 2], fitted[n - 1], weights[n - 1]);
        fitted, weights := fitted[..n - 2] + [pooled], weights[..n - 2] + [weights[n - 2] + weights[n - 1]];
        merges := merges + 1;
      }
      OrderedUpTo(fitted);
    }
    PooledSizes(values, fitted, weights, |values|);
    PooledIsFit(values, fitted, weights);
    expanded := ExpandBlocks(fitted, weights);
  }

  lemma PooledNothing(v: seq<real>)
    ensures Pooled(v, [], [], 0) && NonDecreasing([])
  {
  }

  lemma PooledSizes(v: seq<real>, fitted: seq<real>, weights: seq<nat>, hi: nat)
    requires Pooled(v, fitted, weights, hi)
    ensures |fitted| == |weights| && (fitted != [] ==> weights[|fitted| - 1] >= 1)
  {
    hide IsBlock;
  }

  // ---------------------------------------------------------------- certified => least squares

  function Residuals(v: seq<real>, f: seq<real>): (r: seq<real>)
    requires |v| == |f|
    ensures |r| == |v| && forall i :: 0 <= i < |v| ==> r[i] == v[i] - f[i]
  {
    seq(|v|, i requires 0 <= i < |v| => v[i] - f[i])
  }

  lemma {:induction false} PrefixOfResiduals(v: seq<real>, f: seq<real>, k: nat)
    requires |v| == |f| && k <= |v|
    ensures Prefix(Residuals(v, f), k) == Prefix(v, k) - Prefix(f, k)
  {
    if k > 0 { PrefixOfResiduals(v, f, k - 1); }
  }

  /** ||v - z||^2 = ||v - f||^2 + ||f - z||^2 - 2 <v - f, z - f>. */
  lemma {:induction false} ErrorSplit(v: seq<real>, f: seq<real>, z: seq<real>, k: nat)
    requires |v| == |f| == |z| && k <= |v|
    ensures SquaredError(v, z, k) == SquaredError(v, f, k) + SquaredError(f, z, k)
            - 2.0 * (Dot(Residuals(v, f), z, k) - Dot(Residuals(v, f), f, k))
  {
    if k > 0 {
      ErrorSplit(v, f, z, k - 1);
      SquareSplit(v[k - 1], f[k - 1], z[k - 1]);
    }
  }

  lemma SquareSplit(v: real, f: real, z: real)
    ensures Square(v - z) == Square(v - f) + Square(f - z) - 2.0 * ((v - f) * z - (v - f) * f)
  {
    assert (v - z) * (v - z) == v * v - 2.0 * v * z + z * z;
    assert (v - f) * (v - f) == v * v - 2.0 * v * f + f * f;
    assert (f - z) * (f - z) == f * f - 2.0 * f * z + z * z;
  }

  lemma {:induction false} DifferentMeansError(f: seq<real>, z: seq<real>, i: nat, k: nat)
    requires |f| == |z| && i < k <= |f| && f[i] != z[i]
    ensures SquaredError(f, z, k) > 0.0
  {
    if i == k - 1 { SquareOrder(0.0, f[i] - z[i]); } else { DifferentMeansError(f, z, i, k - 1); }
  }

  lemma {:induction false} CertifiedBeats(v: seq<real>, f: seq<real>, z: seq<real>)
    requires IsCertified(v, f, |v|) && |z| == |v| && NonDecreasing(z)
    ensures SquaredError(v, z, |v|) >= SquaredError(v, f, |v|) + SquaredError(f, z, |v|)
  {
    var n := |v|;
    if n > 0 {
      var r := Residuals(v, f);
      forall k | 0 <= k <= n ensures Prefix(r, k) == Prefix(v, k) - Prefix(f, k) {
        PrefixOfResiduals(v, f, k);
      }
      AbelNonPositive(r, z);
      AbelZero(r, f);
      ErrorSplit(v, f, z, n);
    }
  }

  lemma CertifiedIsLeastSquares(v: seq<real>, f: seq<real>)
    requires IsCertified(v, f, |v|)
    ensures IsLeastSquaresFit(v, f)
  {
    forall z: seq<real> | |z| == |v| && NonDecreasing(z) && z != f
      ensures SquaredError(v, f, |v|) < SquaredError(v, z, |v|)
    {
      CertifiedBeats(v, f, z);
      var i :| 0 <= i < |v| && f[i] != z[i];
      DifferentMeansError(f, z, i, |v|);
    }
  }

  // ---------------------------------------------------------------- certified => max-min formula

  lemma {:induction false} MinMeanBound(v: seq<real>, a: nat, b: nat, c: real)
    requires a < b <= |v|
    ensures (forall e :: b <= e <= |v| ==> Mean(v, a, e) >= c) ==> MinMean(v, a, b) >= c
    ensures forall e :: b <= e <= |v| ==> MinMean(v, a, b) <= Mean(v, a, e)
    decreases |v| - b
  {
    if b < |v| { MinMeanBound(v, a, b + 1, c); }
  }

  lemma {:induction false} MaxMinMeanBound(v: seq<real>, a: nat, i: nat, c: real)
    requires a <= i < |v|
    ensures (forall s :: 0 <= s <= a ==> LeastPast(v, s, i) <= c) ==> MaxMinMean(v, a, i) <= c
    ensures forall s :: 0 <= s <= a ==> LeastPast(v, s, i) <= MaxMinMean(v, a, i)
  {
    if a > 0 { MaxMinMeanBound(v, a - 1, i, c); }
  }

  lemma {:induction false} PrefixGrowth(f: seq<real>, a: nat, b: nat, c: real)
    requires a <= b <= |f|
    ensures (forall i :: a <= i < b ==> f[i] >= c) ==> Prefix(f, b) - Prefix(f, a) >= Times(c, b - a)
    ensures (forall i :: a <= i < b ==> f[i] <= c) ==> Prefix(f, b) - Prefix(f, a) <= Times(c, b - a)
    decreases b
  {
    if a < b {
      PrefixGrowth(f, a, b - 1, c);
    }
  }

  lemma MeanBound(v: seq<real>, a: nat, b: nat, c: real)
    requires a < b <= |v|
    ensures Prefix(v, b) - Prefix(v, a) >= Times(c, b - a) ==> Mean(v, a, b) >= c
    ensures Prefix(v, b) - Prefix(v, a) <= Times(c, b - a) ==> Mean(v, a, b) <= c
  {
    var x, d := Prefix(v, b) - Prefix(v, a), (b - a) as real;
    TimesIsProduct(c, b - a);
    assert c * d / d == c;
    if x >= c * d { DivMono(c * d, x, d); }
    if x <= c * d { DivMono(x, c * d, d); }
  }

  /** The maximal run of equal values around i. */
  lemma RunAround(f: seq<real>, i: nat) returns (s: nat, e: nat)
    requires i < |f| && NonDecreasing(f)
    ensures s <= i < e <= |f|
    ensures forall k :: s <= k < e ==> f[k] == f[i]
    ensures s > 0 ==> f[s - 1] != f[s]
    ensures e < |f| ==> f[e - 1] != f[e]
  {
    s, e := i, i + 1;
    while s > 0 && f[s - 1] == f[s]
      invariant s <= i && forall k :: s <= k <= i ==> f[k] == f[i]
    {
      s := s - 1;
    }
    while e < |f| && f[e - 1] == f[e]
      invariant i < e <= |f| && forall k :: s <= k < e ==> f[k] == f[i]
    {
      e := e + 1;
    }
  }

  lemma CertifiedFromRunStart(v: seq<real>, f: seq<real>, s: nat, i: nat)
    requires IsCertified(v, f, |v|) && s <= i < |v|
    requires f[s] == f[i] && Prefix(v, s) == Prefix(f, s)
    ensures LeastPast(v, s, i) >= f[i]
  {
    forall b | i + 1 <= b <= |v| ensures Mean(v, s, b) >= f[i] {
      PrefixGrowth(f, s, b, f[i]);
      MeanBound(v, s, b, f[i]);
    }
    MinMeanBound(v, s, i + 1, f[i]);
  }

  lemma CertifiedToRunEnd(v: seq<real>, f: seq<real>, a: nat, i: nat, e: nat)
    requires IsCertified(v, f, |v|) && a <= i < e <= |v|
    requires f[e - 1] == f[i] && Prefix(v, e) == Prefix(f, e)
    ensures LeastPast(v, a, i) <= f[i]
  {
    PrefixGrowth(f, a, e, f[i]);
    MeanBound(v, a, e, f[i]);
    MinMeanBound(v, a, i + 1, f[i]);
  }

  lemma CertifiedAt(v: seq<real>, f: seq<real>, i: nat)
    requires IsCertified(v, f, |v|) && i < |v|
    ensures f[i] == MaxMinMean(v, i, i)
  {
    var s, e := RunAround(f, i);
    CertifiedFromRunStart(v, f, s, i);
    forall a | 0 <= a <= i ensures LeastPast(v, a, i) <= f[i] {
      CertifiedToRunEnd(v, f, a, i, e);
    }
    MaxMinMeanBound(v, i, i, f[i]);
  }

  lemma {:induction false} CertifiedIsMaxMin(v: seq<real>, f: seq<real>)
    requires IsCertified(v, f, |v|)
    ensures f == IsotonicFit(v)
  {
    forall i | 0 <= i < |v| ensures f[i] == IsotonicFit(v)[i] {
      CertifiedAt(v, f, i);
    }
  }

  // ---------------------------------------------------------------- the formula is the fit

  lemma {:induction false} PoolingExists(v: seq<real>, hi: nat) returns (fitted: seq<real>, weights: seq<nat>)
    requires hi <= |v|
    ensures Pooled(v, fitted, weights, hi) && NonDecreasing(fitted)
  {
    if hi == 0 {
      fitted, weights := [], [];
    } else {
      fitted, weights := PoolingExists(v, hi - 1);
      SingletonBlock(v, hi - 1);
      fitted, weights := PushBlock(v, fitted, weights, hi - 1, hi, v[hi - 1]);
    }
  }

  lemma {:induction false} PushBlock(v: seq<real>, fitted: seq<real>, weights: seq<nat>, lo: nat, hi: nat, m: real)
    returns (fitted': seq<real>, weights': seq<nat>)
    requires Pooled(v, fitted, weights, lo) && NonDecreasing(fitted) && IsBlock(v, lo, hi, m)
    ensures Pooled(v, fitted', weights', hi) && NonDecreasing(fitted')
    decreases |fitted|
  {
    var n := |fitted|;
    if n == 0 || fitted[n - 1] <= m {
      fitted', weights' := fitted + [m], weights + [hi - lo];
      assert fitted'[..n] == fitted && weights'[..n] == weights;
    } else {
      var start := lo - weights[n - 1];
      MergeBlocks(v, start, lo, hi, fitted[n - 1], m);
      var pooled := PooledMean(fitted[n - 1], lo - start, m, hi - lo);
      fitted', weights' := PushBlock(v, fitted[..n - 1], weights[..n - 1], start, hi, pooled);
    }
  }

  lemma FitIsCertified(v: seq<real>)
    ensures IsCertified(v, IsotonicFit(v), |v|)
  {
    var fitted, weights := PoolingExists(v, |v|);
    PooledIsCertified(v, fitted, weights, |v|);
    CertifiedIsMaxMin(v, Expand(fitted, weights));
  }

  /** The least-squares fit exists, is unique, and is the max-min formula. */
  lemma {:induction false} FitIsUnique(v: seq<real>, f: seq<real>)
    ensures IsLeastSquaresFit(v, f) <==> f == IsotonicFit(v)
  {
    FitIsCertified(v);
    CertifiedIsLeastSquares(v, IsotonicFit(v));
  }

  // ---------------------------------------------------------------- monotone in the measurements

  ghost predicate PointwiseAtMost(v: seq<real>, w: seq<real>) {
    |v| == |w| && forall i :: 0 <= i < |v| ==> v[i] <= w[i]
  }

  lemma {:induction false} MeanMonotone(v: seq<real>, w: seq<real>, a: nat, b: nat)
    requires PointwiseAtMost(v, w) && a < b <= |v|
    ensures Mean(v, a, b) <= Mean(w, a, b)
  {
    PrefixMonotone(v, w, a, b);
    DivMono(Prefix(v, b) - Prefix(v, a), Prefix(w, b) - Prefix(w, a), (b - a) as real);
  }

  lemma {:induction false} PrefixMonotone(v: seq<real>, w: seq<real>, a: nat, b: nat)
    requires PointwiseAtMost(v, w) && a <= b <= |v|
    ensures Prefix(v, b) - Prefix(v, a) <= Prefix(w, b) - Prefix(w, a)
    decreases b
  {
    if a < b { PrefixMonotone(v, w, a, b - 1); }
  }

  lemma {:induction false} MinMeanMonotone(v: seq<real>, w: seq<real>, a: nat, b: nat)
    requires PointwiseAtMost(v, w) && a < b <= |v|
    ensures MinMean(v, a, b) <= MinMean(w, a, b)
    decreases |v| - b
  {
    MeanMonotone(v, w, a, b);
    if b < |v| { MinMeanMonotone(v, w, a, b + 1); }
  }

  lemma {:induction false} MaxMinMeanMonotone(v: seq<real>, w: seq<real>, a: nat, i: nat)
    requires PointwiseAtMost(v, w) && a <= i < |v|
    ensures MaxMinMean(v, a, i) <= MaxMinMean(w, a, i)
  {
    MinMeanMonotone(v, w, a, i + 1);
    if a > 0 { MaxMinMeanMonotone(v, w, a - 1, i); }
  }

  /** Raising any measured power never lowers any fitted value. */
  lemma {:induction false} FitMonotone(v: seq<real>, w: seq<real>)
    requires PointwiseAtMost(v, w)
    ensures PointwiseAtMost(IsotonicFit(v), IsotonicFit(w))
  {
    forall i | 0 <= i < |v| ensures IsotonicFit(v)[i] <= IsotonicFit(w)[i] {
      MaxMinMeanMonotone(v, w, i, i);
    }
  }

  lemma {:induction false} FitAtLeast(v: seq<real>, i: nat, c: real)
    requires i < |v| && forall k :: 0 <= k < |v| ==> v[k] >= c
    ensures IsotonicFit(v)[i] >= c
  {
    forall b | i + 1 <= b <= |v| ensures Mean(v, 0, b) >= c {
      PrefixGrowth(v, 0, b, c);
      MeanBound(v, 0, b, c);
    }
    MinMeanBound(v, 0, i + 1, c);
    MaxMinMeanBound(v, i, i, c);
    assert LeastPast(v, 0, i) >= c;
  }

  lemma {:induction false} FitAtMost(v: seq<real>, i: nat, c: real)
    requires i < |v| && forall k :: 0 <= k < |v| ==> v[k] <= c
    ensures IsotonicFit(v)[i] <= c
  {
    forall a | 0 <= a <= i ensures LeastPast(v, a, i) <= c {
      PrefixGrowth(v, a, i + 1, c);
      MeanBound(v, a, i + 1, c);
      MinMeanBound(v, a, i + 1, c);
    }
    MaxMinMeanBound(v, i, i, c);
  }
}
