/** Enumeration of all pod-to-node assignments, and the overflow-guarded power it relies on. */
module Combinations {
  import opened Options
  import opened Kube

  newtype Int64 = x: int | -0x8000_0000_0000_0000 <= x < 0x8000_0000_0000_0000

  const MAX_INT: Int64 := 0x7FFF_FFFF_FFFF_FFFF

  function Power(a: int, b: nat): int {
    if b == 0 then 1 else Power(a, b - 1) * a
  }

  lemma PowerStep(a: int, b: nat)
    ensures Power(a, 0) == 1 && Power(a, b + 1) == Power(a, b) * a
  {
  }

  lemma {:induction false} PowerPositive(a: int, b: nat)
    requires a >= 1
    ensures Power(a, b) >= 1
  {
    if b > 0 {
      PowerPositive(a, b - 1);
      ProductMono(1, a, Power(a, b - 1));
    }
  }

  lemma ProductMono(x: int, y: int, a: int)
    requires x <= y && a >= 0
    ensures x * a <= y * a
  {
    assert (y - x) * a >= 0;
  }

  lemma {:induction false} PowerGrows(a: int, i: nat, b: nat)
    requires a >= 1 && i <= b
    ensures Power(a, i) <= Power(a, b)
    decreases b
  {
    if i < b {
      PowerGrows(a, i, b - 1);
      PowerPositive(a, b - 1);
      ProductMono(1, a, Power(a, b - 1));
    }
  }

  lemma QuotientGuard(res: int, a: int, max: int)
    requires a >= 1
    ensures res > max / a <==> res * a > max
  {
    var q := max / a;
    assert q * a <= max < (q + 1) * a;
    if res > q { ProductMono(q + 1, res, a); } else { ProductMono(res, q, a); }
  }

  lemma NegativeQuotient(a: int, max: int)
    requires a < 0 && max >= 0
    ensures max / a <= 0
  {
    var q := max / a;
    if q >= 1 { ProductMono(1, q, -a); }
  }

  /** a to the b in 64-bit arithmetic: no product it forms ever leaves the range. */
  method Pow(a: Int64, b: Int64) returns (res: Int64, ok: bool)
    ensures b <= 0 ==> ok && res == 1
    ensures a >= 0 && b >= 0 ==>
      (ok <==> Power(a as int, b as nat) <= MAX_INT as int) && (ok ==> res as int == Power(a as int, b as nat))
    ensures a < 0 && b > 0 ==> !ok
    ensures !ok ==> res == 0
  {
    hide Power;
    PowerStep(a as int, 0);
    res := 1;
    var i: Int64 := 0;
    while i < b
      invariant 0 <= i && (b >= 0 ==> i <= b) && (b <= 0 ==> i == 0) && 0 <= res && (i == 0 ==> res == 1)
      invariant a >= 0 ==> res as int == Power(a as int, i as nat)
      invariant a < 0 ==> i == 0
    {
      if a > 0 { QuotientGuard(res as int, a as int, MAX_INT as int); }
      if a < 0 { NegativeQuotient(a as int, MAX_INT as int); }
      if a != 0 && res > MAX_INT / a {
        PowerStep(a as int, i as nat);
        if a > 0 { PowerGrows(a as int, i as nat + 1, b as nat); }
        return 0, false;
      }
      PowerStep(a as int, i as nat);
      res := res * a;
      i := i + 1;
    }
    ok := true;
  }

  // ---------------------------------------------------------------- base-n digits

  /** i divided by n, p times over. */
  function Shifted(i: nat, n: nat, p: nat): nat
    requires n > 0
  {
    if p == 0 then i else Shifted(i, n, p - 1) / n
  }

  function Digit(i: nat, n: nat, p: nat): (d: nat)
    requires n > 0
    ensures d < n
  {
    Shifted(i, n, p) % n
  }

  /** The number whose base-n digits, lowest first, are f. */
  function Value(f: seq<nat>, n: nat): nat {
    if f == [] then 0 else Value(f[1..], n) * n + f[0]
  }

  lemma {:induction false} ShiftedOnce(i: nat, n: nat, p: nat)
    requires n > 0 && p > 0
    ensures Shifted(i, n, p) == Shifted(i / n, n, p - 1)
  {
    if p > 1 { ShiftedOnce(i, n, p - 1); }
  }

  lemma DivModUnique(x: int, n: int, q: int, d: int)
    requires 0 <= d < n && x == q * n + d
    ensures x / n == q && x % n == d
  {
    var q' := x / n;
    assert x == q' * n + x % n;
    if q' > q { ProductMono(q + 1, q', n); }
    if q' < q { ProductMono(q' + 1, q, n); }
  }

  lemma DigitBound(d: nat, v: int, w: int, n: nat)
    requires d < n && v < w
    ensures v * n + d < w * n
  {
    ProductMono(v + 1, w, n);
  }

  lemma {:induction false} ValueBound(f: seq<nat>, n: nat)
    requires n > 0 && forall p :: 0 <= p < |f| ==> f[p] < n
    ensures Value(f, n) < Power(n, |f|)
  {
    if f != [] {
      ValueBound(f[1..], n);
      PowerStep(n, |f| - 1);
      hide Power;
      DigitBound(f[0], Value(f[1..], n), Power(n, |f| - 1), n);
    }
  }

  lemma {:induction false} DigitsOfValue(f: seq<nat>, n: nat, p: nat)
    requires n > 0 && p < |f| && forall k :: 0 <= k < |f| ==> f[k] < n
    ensures Digit(Value(f, n), n, p) == f[p]
  {
    DivModUnique(Value(f, n), n, Value(f[1..], n), f[0]);
    if p > 0 {
      ShiftedOnce(Value(f, n), n, p);
      DigitsOfValue(f[1..], n, p - 1);
    }
  }

  lemma {:induction false} DigitsDetermine(i: nat, j: nat, n: nat, b: nat)
    requires n > 0 && i < Power(n, b) && j < Power(n, b)
    requires forall p :: 0 <= p < b ==> Digit(i, n, p) == Digit(j, n, p)
    ensures i == j
    decreases b
  {
    PowerStep(n, 0);
    if b > 0 {
      PowerStep(n, b - 1);
      hide Power;
      forall p | 0 <= p < b - 1 ensures Digit(i / n, n, p) == Digit(j / n, n, p) {
        ShiftedOnce(i, n, p + 1);
        ShiftedOnce(j, n, p + 1);
        assert Digit(i, n, p + 1) == Digit(j, n, p + 1);
      }
      QuotientBelow(i, n, Power(n, b - 1));
      QuotientBelow(j, n, Power(n, b - 1));
      DigitsDetermine(i / n, j / n, n, b - 1);
      assert Digit(i, n, 0) == Digit(j, n, 0);
      assert i == n * (i / n) + i % n && j == n * (j / n) + j % n;
    }
  }

  lemma QuotientBelow(i: nat, n: nat, w: nat)
    requires n > 0 && i < w * n
    ensures i / n < w
  {
    if w <= i / n { ProductMono(w, i / n, n); }
  }

  // ---------------------------------------------------------------- the enumeration

  function Combo(pods: seq<Pod>, nodes: seq<Node>, i: nat): (c: Combination)
    requires nodes != []
    ensures |c| == |pods|
  {
    seq(|pods|, p requires 0 <= p < |pods| => Assignment(pods[p], nodes[Digit(i, |nodes|, p)], None))
  }

  method BuildCombination(pods: seq<Pod>, nodes: seq<Node>, i: nat) returns (comb: Combination)
    requires nodes != []
    ensures comb == Combo(pods, nodes, i)
  {
    var tmp: nat := i;
    comb := [];
    for p := 0 to |pods|
      invariant tmp == Shifted(i, |nodes|, p)
      invariant comb == Combo(pods, nodes, i)[..p]
    {
      var nodeIndex := tmp % |nodes|;
      tmp := tmp / |nodes|;
      comb := comb + [Assignment(pods[p], nodes[nodeIndex], None)];
    }
  }

  /** Every assignment of pods to nodes, unless there are too many: then whatever was sampled. */
  method GenerateCombinations(pods: seq<Pod>, nodes: seq<Node>, maxCombinations: Int64, sampled: seq<Combination>)
    returns (r: Option<seq<Combination>>)
    requires |pods| <= MAX_INT as int && |nodes| <= MAX_INT as int
    ensures nodes == [] ==> r == None
    ensures nodes != [] && pods == [] ==> r == Some([[]])
    ensures nodes != [] && pods != [] && Power(|nodes|, |pods|) > maxCombinations as int ==> r == Some(sampled)
    ensures nodes != [] && pods != [] && Power(|nodes|, |pods|) <= maxCombinations as int ==>
      && r.Some? && |r.value| == Power(|nodes|, |pods|)
      && forall i :: 0 <= i < |r.value| ==> r.value[i] == Combo(pods, nodes, i)
  {
    hide Power, Combo;
    if nodes == [] { return None; }
    if pods == [] { return Some([[]]); }
    PowerPositive(|nodes|, |pods|);
    var total, ok := Pow(|nodes| as Int64, |pods| as Int64);
    if !ok || total > maxCombinations { return Some(sampled); }
    var combinations: seq<Combination> := [];
    for i := 0 to total as int
      invariant |combinations| == i
      invariant forall k :: 0 <= k < i ==> combinations[k] == Combo(pods, nodes, k)
    {
      var comb := BuildCombination(pods, nodes, i);
      combinations := combinations + [comb];
    }
    r := Some(combinations);
  }

  /** comb sends pod p to the node at index f[p]. */
  ghost predicate AssignsBy(comb: Combination, pods: seq<Pod>, nodes: seq<Node>, f: seq<nat>) {
    && |comb| == |pods| == |f|
    && forall p :: 0 <= p < |pods| ==> f[p] < |nodes| && comb[p] == Assignment(pods[p], nodes[f[p]], None)
  }

  /** The digits of i, as an index function. */
  function DigitsOf(i: nat, n: nat, b: nat): (f: seq<nat>)
    requires n > 0
    ensures |f| == b && forall p :: 0 <= p < b ==> f[p] < n
  {
    seq(b, p requires 0 <= p < b => Digit(i, n, p))
  }

  /** Each index function is enumerated at exactly one position. */
  lemma {:induction false} EveryAssignmentOnce(pods: seq<Pod>, nodes: seq<Node>, f: seq<nat>)
    requires |f| == |pods| && nodes != [] && forall p :: 0 <= p < |f| ==> f[p] < |nodes|
    ensures Value(f, |nodes|) < Power(|nodes|, |pods|)
    ensures AssignsBy(Combo(pods, nodes, Value(f, |nodes|)), pods, nodes, f)
    ensures forall i: nat :: i < Power(|nodes|, |pods|) && DigitsOf(i, |nodes|, |pods|) == f ==> i == Value(f, |nodes|)
  {
    var n, v := |nodes|, Value(f, |nodes|);
    ValueBound(f, n);
    forall p | 0 <= p < |f| ensures Digit(v, n, p) == f[p] {
      DigitsOfValue(f, n, p);
    }
    forall i: nat | i < Power(n, |pods|) && DigitsOf(i, n, |pods|) == f ensures i == v {
      forall p | 0 <= p < |f| ensures Digit(i, n, p) == Digit(v, n, p) {
        assert DigitsOf(i, n, |pods|)[p] == f[p];
      }
      DigitsDetermine(i, v, n, |pods|);
    }
  }
}
