/** The scaling decision: the core-weighted mean of the predicted CPU against a band of two
    thresholds. */
module Decision {
  import opened Options
  import opened Sums

  /** Predicted CPU, in percent, of one scrape target ("address:port"). */
  datatype Prediction = Prediction(instance: string, percent: real)

  /** A node that takes part in the decision. */
  datatype Load = Load(percent: real, cores: real)

  datatype Outcome = Verdict(change: int) | ZeroDivision

  const DEFAULT_CORES := 4

  // ---------------------------------------------------------------- the loads that count

  /** The address: what stands before the first colon. */
  function Address(instance: string): string {
    if instance == "" || instance[0] == ':' then "" else [instance[0]] + Address(instance[1..])
  }

  predicate IsCounted(p: Prediction, schedulable: Option<set<string>>) {
    schedulable.None? || Address(p.instance) in schedulable.value
  }

  function CoresOf(p: Prediction, cores: map<string, int>): int {
    if Address(p.instance) in cores then cores[Address(p.instance)] else DEFAULT_CORES
  }

  /** The predictions of the nodes that can be used. */
  function Counted(ps: seq<Prediction>, schedulable: Option<set<string>>): seq<Prediction> {
    if ps == [] then []
    else
      var rest := Counted(ps[..|ps| - 1], schedulable);
      if IsCounted(ps[|ps| - 1], schedulable) then rest + [ps[|ps| - 1]] else rest
  }

  function LoadOf(p: Prediction, cores: map<string, int>): Load {
    Load(p.percent, CoresOf(p, cores) as real)
  }

  function LoadsOf(ps: seq<Prediction>, cores: map<string, int>): seq<Load> {
    seq(|ps|, i requires 0 <= i < |ps| => LoadOf(ps[i], cores))
  }

  // ---------------------------------------------------------------- the rule

  function Cores(loads: seq<Load>): real {
    if loads == [] then 0.0 else Cores(loads[..|loads| - 1]) + loads[|loads| - 1].cores
  }

  /** Cores in use on one node. */
  function InUse(load: Load): real {
    load.percent / 100.0 * load.cores
  }

  /** Cores in use. */
  function Used(loads: seq<Load>): real {
    if loads == [] then 0.0
    else Used(loads[..|loads| - 1]) + InUse(loads[|loads| - 1])
  }

  function Largest(loads: seq<Load>): real
    requires loads != []
  {
    if |loads| == 1 then loads[0].cores
    else
      var m := Largest(loads[..|loads| - 1]);
      if loads[|loads| - 1].cores > m then loads[|loads| - 1].cores else m
  }

  /** Cores in use as a percentage of all cores. */
  function Percent(used: real, cores: real): real
    requires cores != 0.0
  {
    100.0 * used / cores
  }

  /** The change of the number of workers, from the number of nodes, the cores in use, all cores and
      the cores of the largest node. */
  function Rule(n: nat, used: real, cores: real, largest: real, min: real, max: real): Outcome {
    if n == 0 then Verdict(0)
    else if cores == 0.0 then ZeroDivision
    else if Percent(used, cores) > max then Verdict(1)
    else if n == 1 then Verdict(0)
    else if cores - largest == 0.0 then ZeroDivision
    else if Percent(used, cores) < min && Percent(used, cores - largest) < max then Verdict(-1)
    else Verdict(0)
  }

  function Decide(loads: seq<Load>, min: real, max: real): Outcome {
    Rule(|loads|, Used(loads), Cores(loads), if loads == [] then 0.0 else Largest(loads), min, max)
  }

  method FilterSchedulable(predicted: seq<Prediction>, schedulable: Option<set<string>>)
    returns (filtered: seq<Prediction>)
    ensures filtered == Counted(predicted, schedulable)
  {
    filtered := [];
    for i := 0 to |predicted|
      invariant filtered == Counted(predicted[..i], schedulable)
    {
      assert predicted[..i + 1][..i] == predicted[..i];
      if IsCounted(predicted[i], schedulable) { filtered := filtered + [predicted[i]]; }
    }
    assert predicted[..|predicted|] == predicted;
  }

  /** Filters the predictions, adds up cores and cores in use, and applies the rule. */
  method EvaluatePredictedCpu(predicted: seq<Prediction>, nodeCores: map<string, int>, schedulable: Option<set<string>>,
                              minThreshold: real, maxThreshold: real) returns (outcome: Outcome)
    ensures outcome == Decide(LoadsOf(Counted(predicted, schedulable), nodeCores), minThreshold, maxThreshold)
  {
    var filtered := FilterSchedulable(predicted, schedulable);
    hide Counted, InUse, CoresOf;
    if filtered == [] { return Verdict(0); }

    var active: seq<Load> := [];
    var totalCores, totalUsed := 0.0, 0.0;
    for i := 0 to |filtered|
      invariant active == LoadsOf(filtered, nodeCores)[..i]
      invariant totalCores == Cores(active) && totalUsed == Used(active)
    {
      var load := LoadOf(filtered[i], nodeCores);
      assert (active + [load])[..|active|] == active;
      active := active + [load];
      totalCores := totalCores + load.cores;
      totalUsed := totalUsed + InUse(load);
    }

    assert active == LoadsOf(filtered, nodeCores);
    hide Cores, Used, Largest, LoadsOf, Counted, Percent;
    if totalCores == 0.0 { return ZeroDivision; }
    var avg := Percent(totalUsed, totalCores);
    if avg > maxThreshold { return Verdict(1); }
    if |filtered| <= 1 { return Verdict(0); }
    var remaining := totalCores - Largest(active);
    if remaining == 0.0 { return ZeroDivision; }
    var avgAfter := Percent(totalUsed, remaining);
    if avg < minThreshold && avgAfter < maxThreshold { return Verdict(-1); }
    return Verdict(0);
  }

  // ---------------------------------------------------------------- what the rule means

  ghost predicate PositiveCores(loads: seq<Load>) {
    forall i :: 0 <= i < |loads| ==> loads[i].cores > 0.0
  }

  /** m percent of the cores, in hundredths. */
  function Share(m: real, cores: real): real {
    m * cores
  }

  lemma ProductAgainst(q: real, m: real, d: real)
    requires d > 0.0
    ensures q > m <==> q * d > m * d
    ensures q < m <==> q * d < m * d
  {
    if q > m { assert (q - m) * d > 0.0; }
    if q < m { assert (m - q) * d > 0.0; }
  }

  lemma PercentAgainst(used: real, cores: real, m: real)
    requires cores > 0.0
    ensures Percent(used, cores) > m <==> 100.0 * used > Share(m, cores)
    ensures Percent(used, cores) < m <==> 100.0 * used < Share(m, cores)
  {
    ProductAgainst(Percent(used, cores), m, cores);
  }

  lemma ShareMono(m: real, c: real, d: real)
    requires m >= 0.0 && c <= d
    ensures Share(m, c) <= Share(m, d)
  {
    MulMono(m, c, d);
  }

  /** The largest node is one of them, and no node outgrows what is left beside it. */
  lemma {:induction false} LargestIs(loads: seq<Load>)
    requires loads != [] && PositiveCores(loads)
    ensures forall i :: 0 <= i < |loads| ==> loads[i].cores <= Largest(loads)
    ensures exists i :: 0 <= i < |loads| && loads[i].cores == Largest(loads)
    ensures 0.0 < Largest(loads) <= Cores(loads)
    ensures |loads| > 1 ==> Largest(loads) < Cores(loads)
  {
    var rest := loads[..|loads| - 1];
    if rest != [] {
      LargestIs(rest);
      assert forall i :: 0 <= i < |rest| ==> rest[i] == loads[i];
    } else {
      assert loads == [loads[0]];
    }
  }

  /** With positive cores there is no division by zero. The verdict is 1 exactly when the cores in use
      exceed the upper share of all cores; it is -1 exactly when they do not, fall short of the lower
      share, and stay short of the upper share of what any one node's removal leaves. */
  lemma {:induction false} DecisionMeans(loads: seq<Load>, min: real, max: real)
    requires PositiveCores(loads)
    ensures Decide(loads, min, max).Verdict? && -1 <= Decide(loads, min, max).change <= 1
    ensures Decide(loads, min, max) == Verdict(1) <==> loads != [] && 100.0 * Used(loads) > Share(max, Cores(loads))
    ensures Decide(loads, min, max) == Verdict(-1) <==>
              && |loads| > 1 && 100.0 * Used(loads) <= Share(max, Cores(loads))
                && 100.0 * Used(loads) < Share(min, Cores(loads))
              && 100.0 * Used(loads) < Share(max, Cores(loads) - Largest(loads))
  {
    hide Cores, Used, Largest, Percent, Share;
    if loads != [] {
      LargestIs(loads);
      PercentAgainst(Used(loads), Cores(loads), max);
      PercentAgainst(Used(loads), Cores(loads), min);
      if |loads| > 1 { PercentAgainst(Used(loads), Cores(loads) - Largest(loads), max); }
    }
  }

  lemma {:induction false} CoresFromZero(loads: seq<Load>)
    requires forall i :: 0 <= i < |loads| ==> loads[i].cores >= 0.0
    ensures Cores(loads) >= 0.0
  {
    if loads != [] { CoresFromZero(loads[..|loads| - 1]); }
  }

  /** Where no node has a negative number of cores, the rule divides by zero exactly when no node has a
      core, or when one of several nodes has them all and is not used beyond the upper share. */
  lemma {:induction false} DividesByZeroIff(loads: seq<Load>, min: real, max: real)
    requires forall i :: 0 <= i < |loads| ==> loads[i].cores >= 0.0
    ensures Decide(loads, min, max) == ZeroDivision <==>
              && loads != []
              && (Cores(loads) == 0.0
                  || (|loads| > 1 && Largest(loads) == Cores(loads)
                      && 100.0 * Used(loads) <= Share(max, Cores(loads))))
  {
    CoresFromZero(loads);
    hide Cores, Used, Largest, Percent, Share;
    if loads != [] && Cores(loads) != 0.0 { PercentAgainst(Used(loads), Cores(loads), max); }
  }

  // ---------------------------------------------------------------- what the rule is applied to

  /** The address is the longest beginning of the target without a colon. */
  lemma {:induction false} AddressIs(instance: string)
    ensures Address(instance) <= instance && ':' !in Address(instance)
    ensures |Address(instance)| < |instance| ==> instance[|Address(instance)|] == ':'
  {
    if instance != "" && instance[0] != ':' { AddressIs(instance[1..]); }
  }

  /** The loads are the predictions at the given places, in order, each with the cores of its own node,
      or with four where those are not known. */
  ghost predicate AreLoads(loads: seq<Load>, ps: seq<Prediction>, at: seq<nat>, cores: map<string, int>) {
    && |loads| == |at| && (forall j :: 0 <= j < |at| ==> at[j] < |ps|)
    && (forall i, j :: 0 <= i < j < |at| ==> at[i] < at[j])
    && forall j :: 0 <= j < |at| ==>
         var address := Address(ps[at[j]].instance);
         && loads[j].percent == ps[at[j]].percent
         && (address in cores ==> loads[j].cores == cores[address] as real)
         && (address !in cores ==> loads[j].cores == 4.0)
  }

  /** The places hold exactly the schedulable nodes; all of them when these are not known. */
  ghost predicate AreCounted(ps: seq<Prediction>, at: seq<nat>, schedulable: Option<set<string>>) {
    forall k :: 0 <= k < |ps| ==>
      (k in at <==> (schedulable.Some? ==> Address(ps[k].instance) in schedulable.value))
  }

  lemma {:induction false} CountedAre(ps: seq<Prediction>, schedulable: Option<set<string>>) returns (at: seq<nat>)
    ensures AreCounted(ps, at, schedulable) && |at| == |Counted(ps, schedulable)|
    ensures forall j :: 0 <= j < |at| ==> at[j] < |ps| && Counted(ps, schedulable)[j] == ps[at[j]]
    ensures forall i, j :: 0 <= i < j < |at| ==> at[i] < at[j]
  {
    at := [];
    if ps != [] {
      var n := |ps| - 1;
      at := CountedAre(ps[..n], schedulable);
      assert n !in at;
      if IsCounted(ps[n], schedulable) { at := at + [n]; }
      assert forall k :: 0 <= k < n ==> ps[..n][k] == ps[k];
    }
  }

  /** The decision is taken on the predictions of exactly the schedulable nodes, in order, each weighted
      with the cores of its own node. */
  lemma {:induction false} DecidesOnSchedulable(ps: seq<Prediction>, schedulable: Option<set<string>>,
                                                cores: map<string, int>)
    ensures exists at ::
      AreCounted(ps, at, schedulable) && AreLoads(LoadsOf(Counted(ps, schedulable), cores), ps, at, cores)
  {
    var at := CountedAre(ps, schedulable);
    hide Counted, Address;
    assert AreLoads(LoadsOf(Counted(ps, schedulable), cores), ps, at, cores);
  }

  function Percents(loads: seq<Load>): seq<real> {
    seq(|loads|, i requires 0 <= i < |loads| => loads[i].percent)
  }

  function CoreCounts(loads: seq<Load>): seq<real> {
    seq(|loads|, i requires 0 <= i < |loads| => loads[i].cores)
  }

  lemma InUseIs(load: Load)
    ensures 100.0 * InUse(load) == load.percent * load.cores
  {
  }

  /** The use compared with the thresholds is the mean of the predicted percentages weighted with the
      cores: in hundredths of a core it is the product of the two rows. */
  lemma {:induction false} UseIsWeighted(loads: seq<Load>)
    ensures 100.0 * Used(loads) == Dot(Percents(loads), CoreCounts(loads), |loads|)
    ensures Cores(loads) == Prefix(CoreCounts(loads), |loads|)
  {
    if loads != [] {
      var n := |loads| - 1;
      UseIsWeighted(loads[..n]);
      DotOfExtension(Percents(loads[..n]), Percents(loads), CoreCounts(loads[..n]), CoreCounts(loads), n);
      PrefixOfExtension(CoreCounts(loads[..n]), CoreCounts(loads), n);
      InUseIs(loads[n]);
      hide InUse;
    }
  }

  lemma {:induction false} DotOfExtension(a: seq<real>, b: seq<real>, c: seq<real>, d: seq<real>, n: nat)
    requires n <= |a| <= |b| && n <= |c| <= |d| && a <= b && c <= d
    ensures Dot(a, c, n) == Dot(b, d, n)
  {
    if n > 0 { DotOfExtension(a, b, c, d, n - 1); }
  }

  // ---------------------------------------------------------------- no oscillation

  /** Switching off any one node of a cluster that was told to shrink, at constant total use, never
      makes it grow. */
  lemma {:induction false} ShrinkIsNotUndone(loads: seq<Load>, min: real, max: real, i: nat, after: seq<Load>)
    requires PositiveCores(loads) && PositiveCores(after) && max >= 0.0
    requires Decide(loads, min, max) == Verdict(-1)
    requires i < |loads| && Cores(after) == Cores(loads) - loads[i].cores && Used(after) == Used(loads)
    ensures Decide(after, min, max) != Verdict(1)
  {
    DecisionMeans(loads, min, max);
    DecisionMeans(after, min, max);
    LargestIs(loads);
    hide Cores, Used, Largest, Decide, Share;
    ShareMono(max, Cores(loads) - Largest(loads), Cores(after));
  }

  /** Adding a node of any size to a cluster that was told to grow, at constant total use, never makes
      it shrink. */
  lemma {:induction false} GrowIsNotUndone(loads: seq<Load>, min: real, max: real, i: nat, after: seq<Load>)
    requires PositiveCores(loads) && PositiveCores(after) && max >= 0.0
    requires Decide(loads, min, max) == Verdict(1)
    requires i < |after| && Cores(after) == Cores(loads) + after[i].cores && Used(after) == Used(loads)
    ensures Decide(after, min, max) != Verdict(-1)
  {
    DecisionMeans(loads, min, max);
    DecisionMeans(after, min, max);
    LargestIs(after);
    hide Cores, Used, Largest, Decide, Share;
    ShareMono(max, Cores(after) - Largest(after), Cores(loads));
  }

  // ---------------------------------------------------------------- monotone in the predictions

  ghost predicate AtMostPointwise(a: seq<Load>, b: seq<Load>) {
    |a| == |b| && forall i :: 0 <= i < |a| ==> a[i].cores == b[i].cores && a[i].percent <= b[i].percent
  }

  lemma InUseMono(a: Load, b: Load)
    requires a.cores == b.cores > 0.0 && a.percent <= b.percent
    ensures InUse(a) <= InUse(b)
  {
    MulMono(a.cores, a.percent / 100.0, b.percent / 100.0);
  }

  lemma UsedStep(a: seq<Load>, n: nat)
    requires |a| == n + 1
    ensures Cores(a) == Cores(a[..n]) + a[n].cores
    ensures Used(a) == Used(a[..n]) + InUse(a[n])
    ensures Largest(a) == if n > 0 && Largest(a[..n]) >= a[n].cores then Largest(a[..n]) else a[n].cores
  {
  }

  lemma {:induction false} UsedMonotone(a: seq<Load>, b: seq<Load>)
    requires AtMostPointwise(a, b) && PositiveCores(a)
    ensures Cores(a) == Cores(b) && Used(a) <= Used(b)
    ensures a != [] ==> Largest(a) == Largest(b)
  {
    if a != [] {
      var n := |a| - 1;
      UsedMonotone(a[..n], b[..n]);
      hide Cores, Used, Largest, InUse;
      UsedStep(a, n);
      UsedStep(b, n);
      InUseMono(a[n], b[n]);
    }
  }

  ghost predicate SameCores(a: seq<Load>, b: seq<Load>) {
    |a| == |b| && forall i :: 0 <= i < |a| ==> a[i].cores == b[i].cores
  }

  /** Both verdicts exist, and b's is at least a's. */
  predicate IsNotLowered(a: seq<Load>, b: seq<Load>, min: real, max: real) {
    && Decide(a, min, max).Verdict? && Decide(b, min, max).Verdict?
    && Decide(a, min, max).change <= Decide(b, min, max).change
  }

  lemma {:induction false} SameCoresSum(a: seq<Load>, b: seq<Load>)
    requires SameCores(a, b)
    ensures Cores(a) == Cores(b) && (a != [] ==> Largest(a) == Largest(b))
  {
    if a != [] { SameCoresSum(a[..|a| - 1], b[..|b| - 1]); }
  }

  /** More cores in use on the same nodes never lower the verdict. */
  lemma {:induction false} MoreUseDecidesMore(a: seq<Load>, b: seq<Load>, min: real, max: real)
    requires SameCores(a, b) && PositiveCores(a) && Used(a) <= Used(b)
    ensures IsNotLowered(a, b, min, max)
  {
    SameCoresSum(a, b);
    DecisionMeans(a, min, max);
    DecisionMeans(b, min, max);
    hide Cores, Used, Largest, Decide, Share;
  }

  /** Over all thresholds the verdict is never lowered exactly when no fewer cores are in use. */
  lemma {:induction false} NeverLoweredIff(a: seq<Load>, b: seq<Load>)
    requires SameCores(a, b) && PositiveCores(a)
    ensures (forall min, max :: IsNotLowered(a, b, min, max)) <==> Used(a) <= Used(b)
  {
    if Used(a) <= Used(b) {
      forall min, max ensures IsNotLowered(a, b, min, max) { MoreUseDecidesMore(a, b, min, max); }
    } else {
      SameCoresSum(a, b);
      LargestIs(a);
      var max := Percent(Used(b), Cores(b));
      PercentAgainst(Used(a), Cores(a), max);
      PercentAgainst(Used(b), Cores(b), max);
      DecisionMeans(a, 0.0, max);
      DecisionMeans(b, 0.0, max);
      hide Cores, Used, Largest, Decide, Share, Percent;
      assert !IsNotLowered(a, b, 0.0, max);
    }
  }

  /** Predicting more load never lowers the verdict. */
  lemma {:induction false} DecisionMonotone(a: seq<Load>, b: seq<Load>, min: real, max: real)
    requires AtMostPointwise(a, b) && PositiveCores(a)
    ensures IsNotLowered(a, b, min, max)
  {
    UsedMonotone(a, b);
    MoreUseDecidesMore(a, b, min, max);
  }

  // ---------------------------------------------------------------- anticipation applied to a prediction

  function Min(x: real, y: real): real {
    if x < y then x else y
  }

  /** The naive model: the mean utilization, boosted and capped at 100. */
  function BoostNaive(mean: real, factor: real): real {
    Min(mean * factor, 100.0)
  }

  /** The learned models: their percentile is capped at 100 and clamped at zero, then boosted and capped
      again when there is a boost. */
  function BoostLearned(percentile: real, factor: real): real {
    var capped := Min(percentile, 100.0);
    var p := if capped < 0.0 then 0.0 else capped;
    if factor > 1.0 then Min(p * factor, 100.0) else p
  }

  function Boosted(p: real, factor: real, learned: bool): real {
    if learned then BoostLearned(p, factor) else BoostNaive(p, factor)
  }

  /** The loads the decision sees for raw predictions. */
  function BoostAll(raw: seq<Load>, factor: real, learned: bool): seq<Load> {
    seq(|raw|, i requires 0 <= i < |raw| => raw[i].(percent := Boosted(raw[i].percent, factor, learned)))
  }

  /** A boost never lowers what the learned models predict; it lowers a naive prediction exactly when
      that is negative. */
  lemma {:induction false} BoostKeepsIff(p: real, factor: real)
    requires factor > 1.0
    ensures BoostNaive(p, factor) >= BoostNaive(p, 1.0) <==> p >= 0.0
    ensures BoostLearned(p, factor) >= BoostLearned(p, 1.0)
    ensures 0.0 <= BoostLearned(p, factor) <= 100.0 && BoostNaive(p, factor) <= 100.0
  {
    BoostGrows(p, factor);
    assert p * 1.0 == p;
    assert BoostNaive(p, 1.0) == Min(p, 100.0) && BoostNaive(p, factor) == Min(p * factor, 100.0);
    var capped := Min(p, 100.0);
    BoostGrows(if capped < 0.0 then 0.0 else capped, factor);
  }

  /** What cannot exceed 100 is multiplied by the factor; the rest becomes 100, and only the learned
      models take a negative prediction for zero. */
  lemma {:induction false} BoostMultiplies(p: real, factor: real)
    requires factor >= 1.0
    ensures p >= 0.0 ==> BoostLearned(p, factor) == BoostNaive(p, factor)
    ensures p < 0.0 ==> BoostLearned(p, factor) == 0.0 && BoostNaive(p, factor) == p * factor
    ensures 0.0 <= p * factor <= 100.0 ==> BoostNaive(p, factor) == p * factor
    ensures p * factor > 100.0 ==> BoostNaive(p, factor) == 100.0
  {
    if factor > 1.0 {
      BoostGrows(p, factor);
      if p < 0.0 { ProductAgainst(0.0, factor, -p); }
      if p > 100.0 { MulMono(factor, 100.0, p); BoostGrows(100.0, factor); }
    } else {
      assert p * factor == p;
    }
  }

  lemma BoostGrows(p: real, factor: real)
    requires factor > 1.0
    ensures p * factor >= p <==> p >= 0.0
  {
    if p >= 0.0 { MulMono(p, 1.0, factor); } else { ProductAgainst(1.0, factor, -p); }
  }

  /** A boost leaves no fewer cores in use: always with the learned models, and with the naive one when
      no mean is negative. */
  lemma {:induction false} BoostUsesMore(raw: seq<Load>, factor: real, learned: bool)
    requires PositiveCores(raw) && factor >= 1.0
    requires learned || forall i :: 0 <= i < |raw| ==> raw[i].percent >= 0.0
    ensures Used(BoostAll(raw, 1.0, learned)) <= Used(BoostAll(raw, factor, learned))
  {
    var plain, boosted := BoostAll(raw, 1.0, learned), BoostAll(raw, factor, learned);
    forall i | 0 <= i < |raw| ensures plain[i].percent <= boosted[i].percent {
      if factor > 1.0 { BoostKeepsIff(raw[i].percent, factor); }
    }
    hide Boosted;
    UsedMonotone(plain, boosted);
  }

  /** Over all thresholds the anticipation never lowers the verdict exactly when it leaves no fewer cores
      in use. */
  lemma {:induction false} AnticipationNeverLowersIff(raw: seq<Load>, factor: real, learned: bool)
    requires PositiveCores(raw)
    ensures (forall min, max :: IsNotLowered(BoostAll(raw, 1.0, learned), BoostAll(raw, factor, learned), min, max))
       <==> Used(BoostAll(raw, 1.0, learned)) <= Used(BoostAll(raw, factor, learned))
  {
    hide Boosted;
    NeverLoweredIff(BoostAll(raw, 1.0, learned), BoostAll(raw, factor, learned));
  }

  /** A negative mean lets the naive model's anticipation turn a growth into no change. */
  lemma {:induction false} AnticipationCanLower()
    ensures var raw := [Load(100.0, 4.0), Load(-2.0, 4.0)];
            && Decide(BoostAll(raw, 1.0, false), 10.0, 48.9) == Verdict(1)
            && Decide(BoostAll(raw, 1.5, false), 10.0, 48.9) == Verdict(0)
  {
    var raw := [Load(100.0, 4.0), Load(-2.0, 4.0)];
    var plain, boosted := BoostAll(raw, 1.0, false), BoostAll(raw, 1.5, false);
    assert plain == raw && boosted == [Load(100.0, 4.0), Load(-3.0, 4.0)];
    assert plain[..1] == [plain[0]] && boosted[..1] == [boosted[0]];
    assert Cores(plain) == 8.0 && Used(plain) == 3.92;
    assert Cores(boosted) == 8.0 && Used(boosted) == 3.88 && Largest(boosted) == 4.0;
  }
}
