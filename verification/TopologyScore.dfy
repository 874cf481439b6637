/** The topology-spread criterion: how much a plan increases the skew, summed over the distinct
    constraints of the pods it moves. */
module TopologyScore {
  import opened Kube
  import opened Skew
  import opened Sums

  // ---------------------------------------------------------------- skew as a function

  lemma {:induction false} PeakExists(counts: map<string, int>) returns (hi: int)
    ensures IsPeak(counts, hi)
    decreases |counts|
  {
    if counts == map[] {
      hi := 0;
    } else {
      var z :| z in counts;
      var rest := counts - {z};
      hi := PeakExists(rest);
      assert forall y :: y in counts ==> y == z || (y in rest && rest[y] == counts[y]);
      if counts[z] > hi { hi := counts[z]; } else if hi != 0 {
        var y :| y in rest && rest[y] == hi;
        assert y in counts && counts[y] == hi;
      }
    }
  }

  lemma {:induction false} FloorExists(counts: map<string, int>) returns (lo: int)
    ensures IsFloor(counts, lo)
    decreases |counts|
  {
    if counts == map[] {
      lo := MAX_INT32;
    } else {
      var z :| z in counts;
      var rest := counts - {z};
      lo := FloorExists(rest);
      assert forall y :: y in counts ==> y == z || (y in rest && rest[y] == counts[y]);
      if counts[z] < lo { lo := counts[z]; } else if lo != MAX_INT32 {
        var y :| y in rest && rest[y] == lo;
        assert y in counts && counts[y] == lo;
      }
    }
  }

  lemma SkewExists(counts: map<string, int>)
    ensures exists skew :: IsSkewOf(counts, skew)
  {
    var hi := PeakExists(counts);
    var lo := FloorExists(counts);
    assert IsSkewOf(counts, if counts == map[] then 0 else hi - lo);
  }

  ghost function SkewOf(counts: map<string, int>): (skew: int)
    ensures IsSkewOf(counts, skew)
  {
    SkewExists(counts);
    var skew :| IsSkewOf(counts, skew);
    skew
  }

  /** Increase of the skew that carrying out the plan causes, never counted below zero. */
  ghost function Degradation(comb: Combination, cluster: Cluster, c: SpreadConstraint): (d: int)
    ensures d >= 0
  {
    var before := SkewOf(Counts([], cluster.nodes, cluster.pods, c));
    var after := SkewOf(Counts(comb, cluster.nodes, cluster.pods, c));
    if after - before > 0 then after - before else 0
  }

  // ---------------------------------------------------------------- distinct constraints

  function ConstraintKey(c: SpreadConstraint): string {
    c.topologyKey + "|" + c.selectorText
  }

  /** Two constraints count as one exactly when they agree in key and selector; a topology key has no bar. */
  lemma {:induction false} KeyTells(c: SpreadConstraint, d: SpreadConstraint)
    requires '|' !in c.topologyKey && '|' !in d.topologyKey
    ensures ConstraintKey(c) == ConstraintKey(d) <==>
            c.topologyKey == d.topologyKey && c.selectorText == d.selectorText
  {
    if ConstraintKey(c) == ConstraintKey(d) {
      var n, m := |c.topologyKey|, |d.topologyKey|;
      assert ConstraintKey(c)[n] == '|' && ConstraintKey(d)[m] == '|';
      assert n == m;
      assert c.topologyKey == ConstraintKey(c)[..n] && d.topologyKey == ConstraintKey(d)[..n];
      assert c.selectorText == ConstraintKey(c)[n + 1..] && d.selectorText == ConstraintKey(d)[n + 1..];
    }
  }

  /** The degradation of each distinct constraint among the first n of cs, added to m. */
  ghost function Collect(m: map<string, int>, cs: seq<SpreadConstraint>, n: nat, comb: Combination,
                         cluster: Cluster): map<string, int>
    requires n <= |cs|
  {
    if n == 0 then m
    else
      var before := Collect(m, cs, n - 1, comb, cluster);
      var key := ConstraintKey(cs[n - 1]);
      if key in before then before else before[key := Degradation(comb, cluster, cs[n - 1])]
  }

  ghost function CollectPlan(plan: Combination, n: nat, comb: Combination, cluster: Cluster): map<string, int>
    requires n <= |plan|
  {
    if n == 0 then map[]
    else
      var spread := plan[n - 1].pod.spread;
      Collect(CollectPlan(plan, n - 1, comb, cluster), spread, |spread|, comb, cluster)
  }

  method GetTopologySpreadScore(comb: Combination, cluster: Cluster) returns (score: int)
    ensures score == MapSum(CollectPlan(comb, |comb|, comb, cluster))
  {
    hide Degradation, MapSum;
    MapSumEmpty<string>();
    if comb == [] { return 0; }
    score := 0;
    var seen: set<string> := {};
    for i := 0 to |comb|
      invariant score == MapSum(CollectPlan(comb, i, comb, cluster)) && seen == CollectPlan(comb, i, comb, cluster).Keys
    {
      ghost var m := CollectPlan(comb, i, comb, cluster);
      var constraints := comb[i].pod.spread;
      for j := 0 to |constraints|
        invariant score == MapSum(Collect(m, constraints, j, comb, cluster))
            && seen == Collect(m, constraints, j, comb, cluster).Keys
      {
        var key := ConstraintKey(constraints[j]);
        if key in seen { continue; }
        seen := seen + {key};
        var before := CalculateRealSkew([], cluster.nodes, cluster.pods, constraints[j]);
        var after := CalculateRealSkew(comb, cluster.nodes, cluster.pods, constraints[j]);
        DegradationFrom(comb, cluster, constraints[j], before, after);
        MapSumAdd(Collect(m, constraints, j, comb, cluster), key, Degradation(comb, cluster, constraints[j]));
        var degradation := after - before;
        if degradation > 0 { score := score + degradation; }
      }
    }
  }

  lemma DegradationFrom(comb: Combination, cluster: Cluster, c: SpreadConstraint, before: int, after: int)
    requires IsSkewOf(Counts([], cluster.nodes, cluster.pods, c), before)
    requires IsSkewOf(Counts(comb, cluster.nodes, cluster.pods, c), after)
    ensures Degradation(comb, cluster, c) == if after - before > 0 then after - before else 0
  {
    hide IsSkewOf, Counts;
    SkewIsUnique(Counts([], cluster.nodes, cluster.pods, c), before,
      SkewOf(Counts([], cluster.nodes, cluster.pods, c)));
    SkewIsUnique(Counts(comb, cluster.nodes, cluster.pods, c), after,
      SkewOf(Counts(comb, cluster.nodes, cluster.pods, c)));
  }

  // ---------------------------------------------------------------- the order does not matter

  ghost predicate SameDistribution(c: SpreadConstraint, d: SpreadConstraint) {
    c.topologyKey == d.topologyKey && forall labels: Labels :: Selected(c, labels) == Selected(d, labels)
  }

  ghost predicate HasConstraint(plan: Combination, n: nat, c: SpreadConstraint)
    requires n <= |plan|
  {
    exists i, j :: 0 <= i < n && 0 <= j < |plan[i].pod.spread| && plan[i].pod.spread[j] == c
  }

  /** Selectors print alike only when they match the same pods. */
  ghost predicate KeysAreFaithful(plan: Combination) {
    forall c, d :: HasConstraint(plan, |plan|, c) && HasConstraint(plan, |plan|, d)
      && ConstraintKey(c) == ConstraintKey(d)
      ==> SameDistribution(c, d)
  }

  lemma {:induction false} StaticCountAlike(pods: seq<Pod>, moved: set<string>, c: SpreadConstraint,
                                            d: SpreadConstraint,
                                           zones: map<string, string>, z: string, n: nat)
    requires SameDistribution(c, d) && n <= |pods|
    ensures StaticCount(pods, moved, c, zones, z, n) == StaticCount(pods, moved, d, zones, z, n)
  {
    hide Selected;
    if n > 0 { StaticCountAlike(pods, moved, c, d, zones, z, n - 1); }
  }

  lemma {:induction false} MovedCountAlike(comb: Combination, c: SpreadConstraint, d: SpreadConstraint,
                                           zones: map<string, string>, z: string, n: nat)
    requires SameDistribution(c, d) && n <= |comb|
    ensures MovedCount(comb, c, zones, z, n) == MovedCount(comb, d, zones, z, n)
  {
    hide Selected;
    if n > 0 { MovedCountAlike(comb, c, d, zones, z, n - 1); }
  }

  lemma CountsAlike(comb: Combination, cluster: Cluster, c: SpreadConstraint, d: SpreadConstraint)
    requires SameDistribution(c, d)
    ensures Counts(comb, cluster.nodes, cluster.pods, c) == Counts(comb, cluster.nodes, cluster.pods, d)
  {
    hide Selected;
    var zones := ZoneMap(cluster.nodes, c.topologyKey, |cluster.nodes|);
    forall z
      ensures StaticCount(cluster.pods, MovedNames(comb, |comb|), c, zones, z, |cluster.pods|)
           == StaticCount(cluster.pods, MovedNames(comb, |comb|), d, zones, z, |cluster.pods|)
      ensures MovedCount(comb, c, zones, z, |comb|) == MovedCount(comb, d, zones, z, |comb|)
    {
      StaticCountAlike(cluster.pods, MovedNames(comb, |comb|), c, d, zones, z, |cluster.pods|);
      MovedCountAlike(comb, c, d, zones, z, |comb|);
    }
  }

  lemma {:induction false} MovedCountPrefix(a: Combination, b: Combination, c: SpreadConstraint,
                                            zones: map<string, string>, z: string, n: nat)
    requires n <= |a| && n <= |b| && forall i :: 0 <= i < n ==> a[i] == b[i]
    ensures MovedCount(a, c, zones, z, n) == MovedCount(b, c, zones, z, n)
  {
    hide IsMovedTo;
    if n > 0 { MovedCountPrefix(a, b, c, zones, z, n - 1); }
  }

  function Without(q: Combination, k: nat): (r: Combination)
    requires k < |q|
    ensures |r| == |q| - 1
    ensures forall i :: 0 <= i < |r| ==> r[i] == if i < k then q[i] else q[i + 1]
  {
    q[..k] + q[k + 1..]
  }

  lemma {:induction false} MovedCountWithout(q: Combination, k: nat, c: SpreadConstraint, zones: map<string, string>,
                                             z: string, n: nat)
    requires k < n <= |q|
    ensures MovedCount(q, c, zones, z, n)
         == MovedCount(Without(q, k), c, zones, z, n - 1) + (if IsMovedTo(q[k], c, zones, z) then 1 else 0)
  {
    hide IsMovedTo;
    if n == k + 1 {
      MovedCountPrefix(q, Without(q, k), c, zones, z, k);
    } else {
      MovedCountWithout(q, k, c, zones, z, n - 1);
    }
  }

  lemma WithoutMultiset(q: Combination, k: nat)
    requires k < |q|
    ensures multiset(Without(q, k)) == multiset(q) - multiset{q[k]}
  {
    assert q == q[..k] + [q[k]] + q[k + 1..];
  }

  lemma {:induction false} MovedCountPermuted(p: Combination, q: Combination, c: SpreadConstraint,
                                              zones: map<string, string>, z: string)
    requires multiset(p) == multiset(q)
    ensures MovedCount(p, c, zones, z, |p|) == MovedCount(q, c, zones, z, |q|)
    decreases |p|
  {
    hide IsMovedTo, Without;
    assert |p| == |multiset(p)| == |multiset(q)| == |q|;
    if p != [] {
      assert p[0] in multiset(q);
      var k :| 0 <= k < |q| && q[k] == p[0];
      WithoutMultiset(p, 0);
      WithoutMultiset(q, k);
      MovedCountPermuted(Without(p, 0), Without(q, k), c, zones, z);
      MovedCountWithout(p, 0, c, zones, z, |p|);
      MovedCountWithout(q, k, c, zones, z, |q|);
    }
  }

  lemma CountsPermuted(p: Combination, q: Combination, cluster: Cluster, c: SpreadConstraint)
    requires multiset(p) == multiset(q)
    ensures Counts(p, cluster.nodes, cluster.pods, c) == Counts(q, cluster.nodes, cluster.pods, c)
  {
    hide Selected, InZone;
    forall name ensures name in MovedNames(p, |p|) <==> name in MovedNames(q, |q|) {
      MovedNamesAre(p, name, |p|);
      MovedNamesAre(q, name, |q|);
      SamePods(p, q, name);
    }
    assert MovedNames(p, |p|) == MovedNames(q, |q|);
    var zones := ZoneMap(cluster.nodes, c.topologyKey, |cluster.nodes|);
    forall z ensures MovedCount(p, c, zones, z, |p|) == MovedCount(q, c, zones, z, |q|) {
      MovedCountPermuted(p, q, c, zones, z);
    }
  }

  lemma SamePods(p: Combination, q: Combination, name: string)
    requires multiset(p) == multiset(q)
    ensures (exists i :: 0 <= i < |p| && p[i].pod.name == name) <==> (exists i :: 0 <= i < |q| && q[i].pod.name == name)
  {
    if i :| 0 <= i < |p| && p[i].pod.name == name { assert p[i] in multiset(q); }
    if i :| 0 <= i < |q| && q[i].pod.name == name { assert q[i] in multiset(p); }
  }

  /** The collected map holds exactly the plan's constraint keys, each with its degradation. */
  lemma {:induction false} CollectIs(m: map<string, int>, cs: seq<SpreadConstraint>, n: nat, comb: Combination,
                                     cluster: Cluster, key: string)
    requires n <= |cs|
    ensures var r := Collect(m, cs, n, comb, cluster);
            && (key in r <==> key in m || exists j :: 0 <= j < n && ConstraintKey(cs[j]) == key)
            && (key in r ==> (key in m && r[key] == m[key])
                             || (key !in m
                                 && exists j ::
                                      && 0 <= j < n && ConstraintKey(cs[j]) == key
                                      && r[key] == Degradation(comb, cluster, cs[j])))
  {
    hide Degradation;
    if n > 0 { CollectIs(m, cs, n - 1, comb, cluster, key); }
  }

  ghost predicate IsDegradationOf(d: int, plan: Combination, n: nat, comb: Combination, cluster: Cluster, key: string)
    requires n <= |plan|
  {
    exists c :: HasConstraint(plan, n, c) && ConstraintKey(c) == key && d == Degradation(comb, cluster, c)
  }

  lemma {:induction false} CollectPlanIs(plan: Combination, n: nat, comb: Combination, cluster: Cluster, key: string)
    requires n <= |plan|
    ensures var r := CollectPlan(plan, n, comb, cluster);
            && (key in r <==> exists c :: HasConstraint(plan, n, c) && ConstraintKey(c) == key)
            && (key in r ==> IsDegradationOf(r[key], plan, n, comb, cluster, key))
  {
    hide Degradation, Collect;
    if n > 0 {
      CollectPlanIs(plan, n - 1, comb, cluster, key);
      var m, cs := CollectPlan(plan, n - 1, comb, cluster), plan[n - 1].pod.spread;
      CollectIs(m, cs, |cs|, comb, cluster, key);
      assert forall j :: 0 <= j < |cs| ==> HasConstraint(plan, n, cs[j]);
      assert forall c :: HasConstraint(plan, n - 1, c) ==> HasConstraint(plan, n, c);
      assert forall c :: HasConstraint(plan, n, c) ==>
               HasConstraint(plan, n - 1, c) || exists j :: 0 <= j < |cs| && cs[j] == c;
    }
  }

  /** The plan raises the skew of the constraint by d, and d is zero where it does not raise it. */
  ghost predicate IsRise(d: int, comb: Combination, cluster: Cluster, c: SpreadConstraint) {
    exists before, after ::
      && IsSkewOf(Counts([], cluster.nodes, cluster.pods, c), before)
      && IsSkewOf(Counts(comb, cluster.nodes, cluster.pods, c), after)
      && (if before < after then d == after - before else d == 0)
  }

  lemma DegradationIsRise(comb: Combination, cluster: Cluster, c: SpreadConstraint)
    ensures IsRise(Degradation(comb, cluster, c), comb, cluster, c)
  {
    hide IsSkewOf, Counts;
    assert IsSkewOf(Counts([], cluster.nodes, cluster.pods, c), SkewOf(Counts([], cluster.nodes, cluster.pods, c)));
    assert IsSkewOf(Counts(comb, cluster.nodes, cluster.pods, c),
        SkewOf(Counts(comb, cluster.nodes, cluster.pods, c)));
  }

  /** One entry for every distinct constraint of the planned pods: how much the plan raises its skew. */
  ghost predicate AreRises(rises: map<string, int>, plan: Combination, cluster: Cluster) {
    && (forall key :: key in rises <==> exists c :: HasConstraint(plan, |plan|, c) && ConstraintKey(c) == key)
    && forall key :: key in rises ==>
         exists c :: HasConstraint(plan, |plan|, c) && ConstraintKey(c) == key
                     && IsRise(rises[key], plan, cluster, c)
  }

  /** The score is the total by which the plan raises the skews of the distinct constraints of its pods. */
  lemma {:induction false} ScoreIsTotalRise(plan: Combination, cluster: Cluster)
    ensures exists rises ::
      AreRises(rises, plan, cluster) && MapSum(rises) == MapSum(CollectPlan(plan, |plan|, plan, cluster))
  {
    hide Degradation, CollectPlan, MapSum, HasConstraint, IsRise;
    var rises := CollectPlan(plan, |plan|, plan, cluster);
    forall key { CollectPlanIs(plan, |plan|, plan, cluster, key); }
    forall key | key in rises
      ensures exists c :: HasConstraint(plan, |plan|, c) && ConstraintKey(c) == key
                          && IsRise(rises[key], plan, cluster, c)
    {
      var c :| HasConstraint(plan, |plan|, c) && ConstraintKey(c) == key
               && rises[key] == Degradation(plan, cluster, c);
      DegradationIsRise(plan, cluster, c);
    }
    assert AreRises(rises, plan, cluster);
  }

  lemma SameConstraints(p: Combination, q: Combination, c: SpreadConstraint)
    requires multiset(p) == multiset(q)
    ensures HasConstraint(p, |p|, c) <==> HasConstraint(q, |q|, c)
  {
    if HasConstraint(p, |p|, c) {
      var i, j :| 0 <= i < |p| && 0 <= j < |p[i].pod.spread| && p[i].pod.spread[j] == c;
      assert p[i] in multiset(q);
    }
    if HasConstraint(q, |q|, c) {
      var i, j :| 0 <= i < |q| && 0 <= j < |q[i].pod.spread| && q[i].pod.spread[j] == c;
      assert q[i] in multiset(p);
    }
  }

  lemma DegradationAlike(p: Combination, q: Combination, cluster: Cluster, c: SpreadConstraint, d: SpreadConstraint)
    requires multiset(p) == multiset(q) && SameDistribution(c, d)
    ensures Degradation(p, cluster, c) == Degradation(q, cluster, d)
  {
    hide Counts, SameDistribution;
    CountsAlike(p, cluster, c, d);
    CountsPermuted(p, q, cluster, d);
    CountsAlike([], cluster, c, d);
  }

  /** Reordering a plan leaves its topology score unchanged. */
  lemma {:induction false} ScoreIgnoresOrder(p: Combination, q: Combination, cluster: Cluster)
    requires multiset(p) == multiset(q) && KeysAreFaithful(p)
    ensures MapSum(CollectPlan(p, |p|, p, cluster)) == MapSum(CollectPlan(q, |q|, q, cluster))
  {
    hide Degradation, CollectPlan, MapSum, SameDistribution, HasConstraint;
    var r, s := CollectPlan(p, |p|, p, cluster), CollectPlan(q, |q|, q, cluster);
    forall c { SameConstraints(p, q, c); }
    forall key ensures key in r <==> key in s {
      CollectPlanIs(p, |p|, p, cluster, key);
      CollectPlanIs(q, |q|, q, cluster, key);
    }
    forall key | key in r ensures r[key] == s[key] {
      CollectPlanIs(p, |p|, p, cluster, key);
      CollectPlanIs(q, |q|, q, cluster, key);
      var c :| HasConstraint(p, |p|, c) && ConstraintKey(c) == key && r[key] == Degradation(p, cluster, c);
      var d :| HasConstraint(q, |q|, d) && ConstraintKey(d) == key && s[key] == Degradation(q, cluster, d);
      DegradationAlike(p, q, cluster, c, d);
    }
    assert r == s;
  }
}
