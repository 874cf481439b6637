/** Prefix sums of real sequences, the summation-by-parts bound that both the power-curve fit and the
    load-trend slope rest on, and sums over finite maps. */
module Sums {

  /** Sum of the first k elements. */
  function Prefix(s: seq<real>, k: nat): real
    requires k <= |s|
  {
    if k == 0 then 0.0 else Prefix(s, k - 1) + s[k - 1]
  }

  /** Sum of a[i] * b[i] over i < k. */
  function Dot(a: seq<real>, b: seq<real>, k: nat): real
    requires k <= |a| && k <= |b|
  {
    if k == 0 then 0.0 else Dot(a, b, k - 1) + a[k - 1] * b[k - 1]
  }

  ghost predicate NonDecreasing(s: seq<real>) {
    forall i, j :: 0 <= i <= j < |s| ==> s[i] <= s[j]
  }

  ghost predicate NonIncreasing(s: seq<real>) {
    forall i, j :: 0 <= i <= j < |s| ==> s[i] >= s[j]
  }

  /** Prefix sums only look at the prefix. */
  lemma {:induction false} PrefixOfExtension(s: seq<real>, t: seq<real>, k: nat)
    requires k <= |s| <= |t| && t[..|s|] == s
    ensures Prefix(t, k) == Prefix(s, k)
  {
    if k > 0 {
      PrefixOfExtension(s, t, k - 1);
      assert t[k - 1] == t[..|s|][k - 1] == s[k - 1];
    }
  }

  /** Summation by parts: a sequence whose prefix sums are all non-negative, weighted by
      non-decreasing factors, is bounded by its total times the last factor. */
  lemma {:induction false} AbelBound(r: seq<real>, z: seq<real>, k: nat)
    requires |r| == |z| && 0 < k <= |r|
    requires forall j :: 0 <= j <= |r| ==> Prefix(r, j) >= 0.0
    requires NonDecreasing(z)
    ensures Dot(r, z, k) <= Prefix(r, k) * z[k - 1]
  {
    if k == 1 {
      assert Dot(r, z, 1) == Dot(r, z, 0) + r[0] * z[0];
      assert Prefix(r, 1) == Prefix(r, 0) + r[0];
    } else {
      AbelBound(r, z, k - 1);
      MulMono(Prefix(r, k - 1), z[k - 2], z[k - 1]);
      assert Prefix(r, k) * z[k - 1] == Prefix(r, k - 1) * z[k - 1] + r[k - 1] * z[k - 1];
    }
  }

  /** When, in addition, the prefix sum vanishes wherever the factor moves, the bound is exact. */
  lemma {:induction false} AbelExact(r: seq<real>, f: seq<real>, k: nat)
    requires |r| == |f| && 0 < k <= |r|
    requires forall j :: 0 < j < |r| && f[j - 1] != f[j] ==> Prefix(r, j) == 0.0
    ensures Dot(r, f, k) == Prefix(r, k) * f[k - 1]
  {
    if k == 1 {
      assert Dot(r, f, 1) == Dot(r, f, 0) + r[0] * f[0];
      assert Prefix(r, 1) == Prefix(r, 0) + r[0];
    } else {
      AbelExact(r, f, k - 1);
      if f[k - 2] != f[k - 1] {
        assert Prefix(r, k - 1) == 0.0;
      }
      assert Prefix(r, k - 1) * f[k - 2] == Prefix(r, k - 1) * f[k - 1];
      assert Prefix(r, k) * f[k - 1] == Prefix(r, k - 1) * f[k - 1] + r[k - 1] * f[k - 1];
    }
  }

  lemma AbelNonPositive(r: seq<real>, z: seq<real>)
    requires |r| == |z| && Prefix(r, |r|) == 0.0 && NonDecreasing(z)
    requires forall j :: 0 <= j <= |r| ==> Prefix(r, j) >= 0.0
    ensures Dot(r, z, |r|) <= 0.0
  {
    if r != [] { AbelBound(r, z, |r|); }
  }

  lemma AbelZero(r: seq<real>, f: seq<real>)
    requires |r| == |f| && Prefix(r, |r|) == 0.0
    requires forall j :: 0 < j < |r| && f[j - 1] != f[j] ==> Prefix(r, j) == 0.0
    ensures Dot(r, f, |r|) == 0.0
  {
    if r != [] { AbelExact(r, f, |r|); }
  }

  lemma MulMono(c: real, x: real, y: real)
    requires c >= 0.0 && x <= y
    ensures c * x <= c * y
  {
    assert c * (y - x) >= 0.0;
  }

  lemma DivMono(x: real, y: real, d: real)
    requires d > 0.0 && x <= y
    ensures x / d <= y / d
  {
    assert (y - x) / d >= 0.0;
    assert y / d == x / d + (y - x) / d;
  }

  lemma MeanBetween(total: real, lo: real, hi: real, d: real)
    requires d > 0.0 && lo * d <= total <= hi * d
    ensures lo <= total / d <= hi
  {
    DivMono(lo * d, total, d);
    DivMono(total, hi * d, d);
    assert lo * d / d == lo && hi * d / d == hi;
  }

  lemma DivAntitone(x: real, c: real, d: real)
    requires 0.0 < c <= d
    ensures x >= 0.0 ==> 0.0 <= x / d <= x / c
    ensures x < 0.0 ==> x / d <= 0.0 && x / c <= 0.0
  {
    if x >= 0.0 {
      DivMono(0.0, x, c);
      MulMono(x / c, c, d);
      MeanBetween(x, 0.0, x / c, d);
    } else {
      DivMono(x, 0.0, c);
      DivMono(x, 0.0, d);
    }
  }

  // ---------------------------------------------------------------- squares

  function Square(x: real): (q: real)
    ensures q >= 0.0
  {
    x * x
  }

  lemma SquareDifference(x: real, y: real)
    ensures Square(y) - Square(x) == (y - x) * (y + x)
  {
  }

  lemma ProductSign(x: real, y: real, q: real)
    requires x >= 0.0 && y >= 0.0 && q == x * y
    ensures q >= 0.0
    ensures x > 0.0 && y > 0.0 ==> q > 0.0
  {
  }

  lemma SquareOrder(x: real, y: real)
    requires 0.0 <= x <= y || y <= x <= 0.0
    ensures Square(x) <= Square(y)
    ensures x != y ==> Square(x) < Square(y)
  {
    SquareDifference(x, y);
    SquareOfNegation(x);
    SquareOfNegation(y);
    hide Square;
    if 0.0 <= x <= y {
      ProductSign(y - x, y + x, Square(y) - Square(x));
    } else {
      SquareDifference(-x, -y);
      ProductSign(x - y, -x - y, Square(-y) - Square(-x));
    }
  }

  lemma SquareOfNegation(x: real)
    ensures Square(-x) == Square(x)
  {
  }

  lemma SquareOfProduct(x: real, f: real)
    ensures Square(x * f) == Square(x) * Square(f)
  {
  }

  // ---------------------------------------------------------------- sums over finite maps

  /** Sum of the values of a map, in whatever order. */
  ghost function MapSum<K>(m: map<K, int>): int
    decreases |m|
  {
    if m == map[] then 0
    else
      var k :| k in m;
      m[k] + MapSum(m - {k})
  }

  lemma MapSumEmpty<K>()
    ensures MapSum<K>(map[]) == 0
  {
  }

  lemma {:induction false} MapSumTakesAny<K>(m: map<K, int>, k: K)
    requires k in m
    ensures MapSum(m) == m[k] + MapSum(m - {k})
    decreases |m|
  {
    var j :| j in m && MapSum(m) == m[j] + MapSum(m - {j});
    if j != k {
      MapSumTakesAny(m - {j}, k);
      MapSumTakesAny(m - {k}, j);
      assert m - {j} - {k} == m - {k} - {j};
    }
  }

  lemma MapSumAdd<K>(m: map<K, int>, k: K, v: int)
    requires k !in m
    ensures MapSum(m[k := v]) == MapSum(m) + v
  {
    MapSumTakesAny(m[k := v], k);
    assert m[k := v] - {k} == m;
  }

  lemma UnionWithout<K>(a: map<K, int>, b: map<K, int>, k: K)
    requires k in b && a.Keys !! b.Keys
    ensures k !in a + (b - {k}) && a + b == (a + (b - {k}))[k := b[k]]
  {
    var whole, again := a + b, (a + (b - {k}))[k := b[k]];
    assert whole.Keys == again.Keys;
    assert forall x :: x in whole ==> whole[x] == again[x];
  }

  /** Disjoint maps add up. */
  lemma {:induction false} MapSumUnion<K>(a: map<K, int>, b: map<K, int>)
    requires a.Keys !! b.Keys
    ensures MapSum(a + b) == MapSum(a) + MapSum(b)
    decreases |b|
  {
    if b == map[] {
      assert a + b == a;
    } else {
      assert (forall k :: k !in b) ==> b == map[];
      var k :| k in b;
      MapSumUnion(a, b - {k});
      MapSumTakesAny(b, k);
      hide MapSum;
      UnionWithout(a, b, k);
      MapSumAdd(a + (b - {k}), k, b[k]);
    }
  }
}
