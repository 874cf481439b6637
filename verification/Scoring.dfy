/** The scores of the default scheduler profile that the planner imitates. */
module Scoring {
  import opened Sums
  import opened Kube

  // ---------------------------------------------------------------- raw scores

  /** Total weight of the pod's preferred node terms the node satisfies. */
  function NodeAffinityWeight(pod: Pod, node: Node, n: nat): int
    requires n <= |pod.preferredNodeAffinity|
  {
    if n == 0 then 0
    else
      var t := pod.preferredNodeAffinity[n - 1];
      NodeAffinityWeight(pod, node, n - 1) + (if MatchesTerm(t.preference, node.labels) then t.weight else 0)
  }

  predicate SameTopologyDomain(a: Node, b: Node, topologyKey: string) {
    if topologyKey == "" || topologyKey == "kubernetes.io/hostname" then a.name == b.name
    else topologyKey in a.labels && topologyKey in b.labels && a.labels[topologyKey] == b.labels[topologyKey]
  }

  /** A node shares its host with itself alone; by any other label a domain is the nodes that carry one
      value of it, and a node without the label is in none. */
  lemma DomainCases(a: Node, b: Node, c: Node, key: string)
    ensures SameTopologyDomain(a, b, "kubernetes.io/hostname") <==> a.name == b.name
    ensures SameTopologyDomain(a, b, "") <==> a.name == b.name
    ensures key != "" && key != "kubernetes.io/hostname" ==>
              (SameTopologyDomain(a, b, key) <==> exists v :: (key, v) in a.labels.Items && (key, v) in b.labels.Items)
    ensures SameTopologyDomain(a, b, key) ==> SameTopologyDomain(b, a, key)
    ensures SameTopologyDomain(a, b, key) && SameTopologyDomain(b, c, key) ==> SameTopologyDomain(a, c, key)
  {
    if key in a.labels { assert (key, a.labels[key]) in a.labels.Items; }
    if key in b.labels { assert (key, b.labels[key]) in b.labels.Items; }
  }

  /** Weight of owner's terms that target satisfies, in domains that hold both nodes. */
  function MatchedWeight(owner: Pod, target: Pod, terms: seq<WeightedAffinityTerm>, a: Node, b: Node, n: nat): int
    requires n <= |terms|
  {
    if n == 0 then 0
    else
      var t := terms[n - 1];
      MatchedWeight(owner, target, terms, a, b, n - 1)
      + (if SameTopologyDomain(a, b, t.term.topologyKey) && MatchesAffinityTerm(owner, target, t.term)
         then t.weight else 0)
  }

  /** What one occupant contributes: affinity minus anti-affinity, in both directions. */
  function PairScore(pod: Pod, occupant: Pod, node: Node, other: Node): int {
    MatchedWeight(pod, occupant, pod.preferredPodAffinity, node, other, |pod.preferredPodAffinity|)
    - MatchedWeight(pod, occupant, pod.preferredPodAntiAffinity, node, other, |pod.preferredPodAntiAffinity|)
    + MatchedWeight(occupant, pod, occupant.preferredPodAffinity, node, other, |occupant.preferredPodAffinity|)
    - MatchedWeight(occupant, pod, occupant.preferredPodAntiAffinity, node, other, |occupant.preferredPodAntiAffinity|)
  }

  function Lookup(m: map<string, seq<Pod>>, name: string): seq<Pod> {
    if name in m then m[name] else []
  }

  /** The pods on a candidate: those already there, then those the plan has placed there. */
  function Occupants(nodeName: string, resident: map<string, seq<Pod>>, placed: map<string, seq<Pod>>): seq<Pod> {
    Lookup(resident, nodeName) + Lookup(placed, nodeName)
  }

  function OccupantsScore(pod: Pod, node: Node, other: Node, occupants: seq<Pod>, n: nat): int
    requires n <= |occupants|
  {
    if n == 0 then 0
    else OccupantsScore(pod, node, other, occupants, n - 1) + PairScore(pod, occupants[n - 1], node, other)
  }

  function InterPodScore(pod: Pod, node: Node, candidates: seq<Node>, resident: map<string, seq<Pod>>,
                         placed: map<string, seq<Pod>>, n: nat): int
    requires n <= |candidates|
  {
    if n == 0 then 0
    else
      var occupants := Occupants(candidates[n - 1].name, resident, placed);
      InterPodScore(pod, node, candidates, resident, placed, n - 1)
      + OccupantsScore(pod, node, candidates[n - 1], occupants, |occupants|)
  }

  method InterPodAffinityScore(pod: Pod, node: Node, candidates: seq<Node>, resident: map<string, seq<Pod>>,
                               placed: map<string, seq<Pod>>)
    returns (score: int)
    ensures score == InterPodScore(pod, node, candidates, resident, placed, |candidates|)
  {
    hide PairScore, Occupants;
    score := 0;
    for i := 0 to |candidates|
      invariant score == InterPodScore(pod, node, candidates, resident, placed, i)
    {
      ghost var before := score;
      var occupants := Occupants(candidates[i].name, resident, placed);
      for j := 0 to |occupants|
        invariant score == before + OccupantsScore(pod, node, candidates[i], occupants, j)
      {
        score := score + PairScore(pod, occupants[j], node, candidates[i]);
      }
    }
  }

  function Clamp01(v: real): real {
    if v > 1.0 then 1.0 else if v < 0.0 then 0.0 else v
  }

  function FreeFraction(free: int, requested: int, allocatable: int): real
    requires allocatable > 0
  {
    Clamp01((free as real - requested as real) / allocatable as real)
  }

  /** LeastAllocated and BalancedAllocation, 0 to 100. */
  function ResourceScores(req: Requests, node: Node, free: Resources): (real, real) {
    if node.allocatable.cpu <= 0 || node.allocatable.memory <= 0 then (0.0, 0.0)
    else
      var cpuFree := FreeFraction(free.cpu, req.cpu, node.allocatable.cpu);
      var memFree := FreeFraction(free.memory, req.memory, node.allocatable.memory);
      var gap := if cpuFree >= memFree then cpuFree - memFree else memFree - cpuFree;
      ((cpuFree + memFree) / 2.0 * 100.0, (1.0 - gap / 2.0) * 100.0)
  }

  // ---------------------------------------------------------------- normalization

  function Highest(s: seq<real>, n: nat): (x: real)
    requires n <= |s|
    ensures forall i :: 0 <= i < n ==> s[i] <= x
    ensures n > 0 ==> exists i :: 0 <= i < n && s[i] == x
  {
    if n == 0 then 0.0
    else if n == 1 then s[0]
    else if s[n - 1] > Highest(s, n - 1) then s[n - 1] else Highest(s, n - 1)
  }

  function Lowest(s: seq<real>, n: nat): (x: real)
    requires n <= |s|
    ensures forall i :: 0 <= i < n ==> x <= s[i]
    ensures n > 0 ==> exists i :: 0 <= i < n && s[i] == x
  {
    if n == 0 then 0.0
    else if n == 1 then s[0]
    else if s[n - 1] < Lowest(s, n - 1) then s[n - 1] else Lowest(s, n - 1)
  }

  method MaxFloat64(values: array<real>) returns (x: real)
    ensures x == Highest(values[..], values.Length)
  {
    if values.Length == 0 { return 0.0; }
    x := values[0];
    for i := 1 to values.Length
      invariant x == Highest(values[..], i)
    {
      if values[i] > x { x := values[i]; }
    }
  }

  method MinFloat64(values: array<real>) returns (x: real)
    ensures x == Lowest(values[..], values.Length)
  {
    if values.Length == 0 { return 0.0; }
    x := values[0];
    for i := 1 to values.Length
      invariant x == Lowest(values[..], i)
    {
      if values[i] < x { x := values[i]; }
    }
  }

  function ToMax(v: real, highest: real): real {
    if highest <= 0.0 then v else v * 100.0 / highest
  }

  function ScaledToMax(s: seq<real>): (r: seq<real>)
    ensures |r| == |s|
  {
    seq(|s|, i requires 0 <= i < |s| => ToMax(s[i], Highest(s, |s|)))
  }

  function ToRange(v: real, lowest: real, highest: real): real {
    if highest > lowest then 100.0 * (v - lowest) / (highest - lowest) else 0.0
  }

  function ScaledMinMax(s: seq<real>): (r: seq<real>)
    ensures |r| == |s|
  {
    seq(|s|, i requires 0 <= i < |s| => ToRange(s[i], Lowest(s, |s|), Highest(s, |s|)))
  }

  /** In place: the highest score becomes 100; all zero stays zero. */
  method ScaleToMax(scores: array<real>)
    modifies scores
    ensures scores[..] == ScaledToMax(old(scores[..]))
  {
    hide Highest;
    var highest := MaxFloat64(scores);
    if highest <= 0.0 { return; }
    for i := 0 to scores.Length
      invariant forall k :: 0 <= k < i ==> scores[k] == ToMax(old(scores[k]), highest)
      invariant forall k :: i <= k < scores.Length ==> scores[k] == old(scores[k])
    {
      scores[i] := scores[i] * 100.0 / highest;
    }
  }

  /** In place: scaled to 0..100 between the lowest and the highest; all equal become zero. */
  method ScaleMinMax(scores: array<real>)
    modifies scores
    ensures scores[..] == ScaledMinMax(old(scores[..]))
  {
    hide Highest, Lowest;
    var lowest := MinFloat64(scores);
    var highest := MaxFloat64(scores);
    for i := 0 to scores.Length
      invariant forall k :: 0 <= k < i ==> scores[k] == ToRange(old(scores[k]), lowest, highest)
      invariant forall k :: i <= k < scores.Length ==> scores[k] == old(scores[k])
    {
      if highest > lowest {
        scores[i] := 100.0 * (scores[i] - lowest) / (highest - lowest);
      } else {
        scores[i] := 0.0;
      }
    }
  }

  // ---------------------------------------------------------------- the weighted sum

  ghost predicate AreIndices(admissible: seq<nat>, candidates: seq<Node>) {
    forall k :: 0 <= k < |admissible| ==> admissible[k] < |candidates|
  }

  function RawNodeScores(pod: Pod, candidates: seq<Node>, admissible: seq<nat>): (s: seq<real>)
    requires forall k :: 0 <= k < |admissible| ==> admissible[k] < |candidates|
    ensures |s| == |admissible|
  {
    seq(|admissible|, k requires 0 <= k < |admissible| =>
      NodeAffinityWeight(pod, candidates[admissible[k]], |pod.preferredNodeAffinity|) as real)
  }

  function RawPodScores(pod: Pod, candidates: seq<Node>, admissible: seq<nat>,
                        resident: map<string, seq<Pod>>, placed: map<string, seq<Pod>>): (s: seq<real>)
    requires forall k :: 0 <= k < |admissible| ==> admissible[k] < |candidates|
    ensures |s| == |admissible|
  {
    seq(|admissible|, k requires 0 <= k < |admissible| =>
      InterPodScore(pod, candidates[admissible[k]], candidates, resident, placed, |candidates|) as real)
  }

  function LookupFree(free: map<string, Resources>, name: string): Resources {
    if name in free then free[name] else Resources(0, 0)
  }

  function ResourceTotal(req: Requests, node: Node, free: map<string, Resources>): real {
    var (least, balanced) := ResourceScores(req, node, LookupFree(free, node.name));
    1.0 * least + 1.0 * balanced
  }

  /** The score of every admissible candidate, normalized across them. */
  function Scores(pod: Pod, req: Requests, candidates: seq<Node>, admissible: seq<nat>,
                  free: map<string, Resources>, resident: map<string, seq<Pod>>,
                  placed: map<string, seq<Pod>>): (s: seq<real>)
    requires forall k :: 0 <= k < |admissible| ==> admissible[k] < |candidates|
    ensures |s| == |admissible|
  {
    var nodeAffinity := ScaledToMax(RawNodeScores(pod, candidates, admissible));
    var podAffinity := ScaledMinMax(RawPodScores(pod, candidates, admissible, resident, placed));
    seq(|admissible|, k requires 0 <= k < |admissible| =>
      ResourceTotal(req, candidates[admissible[k]], free) + (2.0 * nodeAffinity[k] + 2.0 * podAffinity[k]))
  }

  function ResourceTotals(req: Requests, candidates: seq<Node>, admissible: seq<nat>,
                          free: map<string, Resources>): (s: seq<real>)
    requires forall k :: 0 <= k < |admissible| ==> admissible[k] < |candidates|
    ensures |s| == |admissible|
  {
    seq(|admissible|, k requires 0 <= k < |admissible| => ResourceTotal(req, candidates[admissible[k]], free))
  }

  method RawScores(pod: Pod, req: Requests, candidates: seq<Node>, admissible: seq<nat>,
                   free: map<string, Resources>, resident: map<string, seq<Pod>>, placed: map<string, seq<Pod>>)
    returns (nodeAffinity: array<real>, podAffinity: array<real>, total: array<real>)
    requires AreIndices(admissible, candidates)
    ensures fresh(nodeAffinity) && fresh(podAffinity) && fresh(total)
    ensures nodeAffinity != podAffinity && nodeAffinity != total && podAffinity != total
    ensures nodeAffinity[..] == RawNodeScores(pod, candidates, admissible)
    ensures podAffinity[..] == RawPodScores(pod, candidates, admissible, resident, placed)
    ensures total[..] == ResourceTotals(req, candidates, admissible, free)
  {
    hide NodeAffinityWeight, InterPodScore, ResourceScores;
    var n := |admissible|;
    nodeAffinity, podAffinity, total := new real[n], new real[n], new real[n];
    for k := 0 to n
      invariant forall q :: 0 <= q < k ==> nodeAffinity[q] == RawNodeScores(pod, candidates, admissible)[q]
      invariant forall q :: 0 <= q < k ==>
                  podAffinity[q] == RawPodScores(pod, candidates, admissible, resident, placed)[q]
      invariant forall q :: 0 <= q < k ==> total[q] == ResourceTotals(req, candidates, admissible, free)[q]
    {
      var node := candidates[admissible[k]];
      nodeAffinity[k] := NodeAffinityWeight(pod, node, |pod.preferredNodeAffinity|) as real;
      var inter := InterPodAffinityScore(pod, node, candidates, resident, placed);
      podAffinity[k] := inter as real;
      var (least, balanced) := ResourceScores(req, node, LookupFree(free, node.name));
      total[k] := 1.0 * least + 1.0 * balanced;
    }
  }

  method SchedulerScores(pod: Pod, req: Requests, candidates: seq<Node>, admissible: seq<nat>,
                         free: map<string, Resources>, resident: map<string, seq<Pod>>, placed: map<string, seq<Pod>>)
    returns (scores: seq<real>)
    requires AreIndices(admissible, candidates)
    ensures scores == Scores(pod, req, candidates, admissible, free, resident, placed)
  {
    hide ScaledToMax, ScaledMinMax, RawNodeScores, RawPodScores, ResourceTotal;
    var nodeAffinity, podAffinity, total := RawScores(pod, req, candidates, admissible, free, resident, placed);
    ScaleToMax(nodeAffinity);
    ScaleMinMax(podAffinity);
    for k := 0 to total.Length
      invariant forall q :: 0 <= q < k ==>
                  total[q] == Scores(pod, req, candidates, admissible, free, resident, placed)[q]
      invariant forall q :: k <= q < total.Length ==> total[q] == ResourceTotal(req, candidates[admissible[q]], free)
      invariant nodeAffinity[..] == ScaledToMax(RawNodeScores(pod, candidates, admissible))
      invariant podAffinity[..] == ScaledMinMax(RawPodScores(pod, candidates, admissible, resident, placed))
    {
      total[k] := total[k] + (2.0 * nodeAffinity[..][k] + 2.0 * podAffinity[..][k]);
    }
    scores := total[..];
  }

  // ---------------------------------------------------------------- what a score can be

  lemma {:induction false} NodeWeightNonNegative(pod: Pod, node: Node, n: nat)
    requires n <= |pod.preferredNodeAffinity|
    requires forall t :: t in pod.preferredNodeAffinity ==> t.weight >= 0
    ensures NodeAffinityWeight(pod, node, n) >= 0
  {
    if n > 0 {
      NodeWeightNonNegative(pod, node, n - 1);
      assert pod.preferredNodeAffinity[n - 1] in pod.preferredNodeAffinity;
    }
  }

  lemma ToMaxBetween(v: real, highest: real)
    requires 0.0 <= v <= highest
    ensures 0.0 <= ToMax(v, highest) <= 100.0
    ensures v == highest > 0.0 ==> ToMax(v, highest) == 100.0
  {
    if highest > 0.0 { MeanBetween(v * 100.0, 0.0, 100.0, highest); }
    if v == highest > 0.0 { MeanBetween(v * 100.0, 100.0, 100.0, highest); }
  }

  lemma ToRangeBetween(v: real, lowest: real, highest: real)
    requires lowest <= v <= highest
    ensures 0.0 <= ToRange(v, lowest, highest) <= 100.0
  {
    if highest > lowest { MeanBetween(100.0 * (v - lowest), 0.0, 100.0, highest - lowest); }
  }

  lemma ResourceScoresBetween(req: Requests, node: Node, free: Resources)
    ensures 0.0 <= ResourceScores(req, node, free).0 <= 100.0
    ensures 0.0 <= ResourceScores(req, node, free).1 <= 100.0
  {
    hide FreeFraction;
    if node.allocatable.cpu > 0 && node.allocatable.memory > 0 {
      FractionBetween(free.cpu, req.cpu, node.allocatable.cpu);
      FractionBetween(free.memory, req.memory, node.allocatable.memory);
    }
  }

  lemma FractionBetween(free: int, requested: int, allocatable: int)
    requires allocatable > 0
    ensures 0.0 <= FreeFraction(free, requested, allocatable) <= 1.0
  {
  }

  /** Every score lies between 0 and the total weight of the four plugins times 100. */
  lemma {:induction false} ScoreBetween(pod: Pod, req: Requests, candidates: seq<Node>, admissible: seq<nat>,
                     free: map<string, Resources>, resident: map<string, seq<Pod>>, placed: map<string, seq<Pod>>,
                     k: nat)
    requires AreIndices(admissible, candidates) && k < |admissible|
    requires forall t :: t in pod.preferredNodeAffinity ==> t.weight >= 0
    ensures 0.0 <= Scores(pod, req, candidates, admissible, free, resident, placed)[k] <= 600.0
  {
    hide ToMax, ToRange, ResourceScores, NodeAffinityWeight, InterPodScore, Highest, Lowest;
    var raw := RawNodeScores(pod, candidates, admissible);
    NodeWeightNonNegative(pod, candidates[admissible[k]], |pod.preferredNodeAffinity|);
    ToMaxBetween(raw[k], Highest(raw, |raw|));
    var inter := RawPodScores(pod, candidates, admissible, resident, placed);
    ToRangeBetween(inter[k], Lowest(inter, |inter|), Highest(inter, |inter|));
    var node := candidates[admissible[k]];
    ResourceScoresBetween(req, node, LookupFree(free, node.name));
  }

  // ---------------------------------------------------------------- what a score is made of

  ghost predicate IsGreatest(x: real, values: seq<real>) {
    (exists i :: 0 <= i < |values| && values[i] == x) && forall i :: 0 <= i < |values| ==> values[i] <= x
  }

  ghost predicate IsSmallest(x: real, values: seq<real>) {
    (exists i :: 0 <= i < |values| && values[i] == x) && forall i :: 0 <= i < |values| ==> x <= values[i]
  }

  ghost predicate IsRatio(x: real, part: real, whole: real) {
    x * whole == 100.0 * part
  }

  /** x is the value in percent of the greatest one; values that are not positive stay as they are. */
  ghost predicate IsPercentOfGreatest(x: real, v: real, values: seq<real>) {
    exists top :: IsGreatest(top, values) && if top <= 0.0 then x == v else IsRatio(x, v, top)
  }

  /** x is how far the value lies from the smallest to the greatest one, in percent; zero when they agree. */
  ghost predicate IsPercentOfRange(x: real, v: real, values: seq<real>) {
    exists low, top ::
      IsSmallest(low, values) && IsGreatest(top, values)
      && if low < top then IsRatio(x, v - low, top - low) else x == 0.0
  }

  lemma QuotientIsRatio(part: real, whole: real)
    requires whole != 0.0
    ensures IsRatio(part * 100.0 / whole, part, whole) && IsRatio(100.0 * part / whole, part, whole)
  {
    assert part * 100.0 / whole * whole == part * 100.0;
  }

  /** Scaling by the maximum turns every value into its percentage of the greatest. */
  lemma {:induction false} ScaledByGreatest(s: seq<real>, i: nat)
    requires i < |s|
    ensures IsPercentOfGreatest(ScaledToMax(s)[i], s[i], s)
  {
    var top := Highest(s, |s|);
    assert IsGreatest(top, s);
    hide Highest, IsRatio;
    if top > 0.0 { QuotientIsRatio(s[i], top); }
  }

  /** Scaling to the range turns every value into its percentage of the way up. */
  lemma {:induction false} ScaledInRange(s: seq<real>, i: nat)
    requires i < |s|
    ensures IsPercentOfRange(ScaledMinMax(s)[i], s[i], s)
  {
    var low, top := Lowest(s, |s|), Highest(s, |s|);
    assert IsGreatest(top, s) && IsSmallest(low, s);
    hide Highest, Lowest, IsRatio;
    if low < top { QuotientIsRatio(s[i] - low, top - low); }
  }

  lemma ShareTimes(part: real, whole: real, share: real)
    requires whole > 0.0 && share == part / whole
    ensures share * whole == part && (share > 1.0 <==> part > whole) && (share < 0.0 <==> part < 0.0)
  {
    assert share * whole == part;
    if share > 1.0 { MulMono(whole, 1.0, share); } else { MulMono(whole, share, 1.0); }
    if part < 0.0 && share >= 0.0 { MulMono(whole, 0.0, share); }
    if share < 0.0 && part >= 0.0 { DivMono(0.0, part, whole); }
  }

  /** The free share is what the request leaves free, in parts of all the node has, and never less than
      nothing or more than all. */
  lemma {:induction false} FreeShareIs(free: int, requested: int, allocatable: int)
    requires allocatable > 0
    ensures var left := free - requested;
            FreeFraction(free, requested, allocatable) * allocatable as real
            == if left < 0 then 0.0 else if left > allocatable then allocatable as real else left as real
  {
    var part, whole := free as real - requested as real, allocatable as real;
    ShareTimes(part, whole, part / whole);
    assert part == (free - requested) as real;
  }

  /** A score is the resource score, twice the node affinity in percent of the greatest, and twice the way
      of the pod affinity from the smallest to the greatest in percent, among the admissible candidates. */
  lemma {:induction false} ScoreIsMadeOf(pod: Pod, req: Requests, candidates: seq<Node>, admissible: seq<nat>,
                                         free: map<string, Resources>, resident: map<string, seq<Pod>>,
                                         placed: map<string, seq<Pod>>, k: nat)
    requires AreIndices(admissible, candidates) && k < |admissible|
    ensures exists x, y ::
      && IsPercentOfGreatest(x, RawNodeScores(pod, candidates, admissible)[k],
           RawNodeScores(pod, candidates, admissible))
      && IsPercentOfRange(y, RawPodScores(pod, candidates, admissible, resident, placed)[k],
           RawPodScores(pod, candidates, admissible, resident, placed))
      && Scores(pod, req, candidates, admissible, free, resident, placed)[k]
         == ResourceTotal(req, candidates[admissible[k]], free) + 2.0 * (x + y)
  {
    var nodes := RawNodeScores(pod, candidates, admissible);
    var pods := RawPodScores(pod, candidates, admissible, resident, placed);
    ScaledByGreatest(nodes, k);
    ScaledInRange(pods, k);
    hide RawNodeScores, RawPodScores, ResourceTotal, ScaledToMax, ScaledMinMax, IsPercentOfGreatest, IsPercentOfRange;
    var x, y := ScaledToMax(nodes)[k], ScaledMinMax(pods)[k];
    assert Scores(pod, req, candidates, admissible, free, resident, placed)[k]
        == ResourceTotal(req, candidates[admissible[k]], free) + (2.0 * x + 2.0 * y);
  }

  // ---------------------------------------------------------------- a better candidate scores higher

  lemma ToMaxOrder(v: real, w: real, highest: real)
    requires v <= w
    ensures ToMax(v, highest) <= ToMax(w, highest)
  {
    if highest > 0.0 { DivMono(v * 100.0, w * 100.0, highest); }
  }

  lemma ToRangeOrder(v: real, w: real, lowest: real, highest: real)
    requires v <= w
    ensures ToRange(v, lowest, highest) <= ToRange(w, lowest, highest)
  {
    if highest > lowest { DivMono(100.0 * (v - lowest), 100.0 * (w - lowest), highest - lowest); }
  }

  function Least(x: real, y: real): real {
    if x <= y then x else y
  }

  /** Whether the node can be scored at all. */
  predicate HasCapacity(node: Node) {
    node.allocatable.cpu > 0 && node.allocatable.memory > 0
  }

  /** What stays free of the scarcer resource. */
  function Scarcest(req: Requests, node: Node, free: Resources): real
    requires HasCapacity(node)
  {
    Least(FreeFraction(free.cpu, req.cpu, node.allocatable.cpu),
      FreeFraction(free.memory, req.memory, node.allocatable.memory))
  }

  /** The two resource scores together depend on the scarcer resource only. */
  lemma {:induction false} ResourcesCountTheScarcest(req: Requests, node: Node, free: map<string, Resources>)
    ensures ResourceTotal(req, node, free)
         == if HasCapacity(node) then 100.0 * (1.0 + Scarcest(req, node, LookupFree(free, node.name))) else 0.0
  {
    hide FreeFraction;
  }

  /** Candidate a offers at least what candidate b offers, criterion by criterion. */
  ghost predicate OffersAtLeast(pod: Pod, req: Requests, a: Node, b: Node, candidates: seq<Node>,
                                free: map<string, Resources>,
                                resident: map<string, seq<Pod>>, placed: map<string, seq<Pod>>) {
    && NodeAffinityWeight(pod, a, |pod.preferredNodeAffinity|)
       >= NodeAffinityWeight(pod, b, |pod.preferredNodeAffinity|)
    && InterPodScore(pod, a, candidates, resident, placed, |candidates|)
       >= InterPodScore(pod, b, candidates, resident, placed, |candidates|)
    && HasCapacity(a)
    && (HasCapacity(b) ==> Scarcest(req, a, LookupFree(free, a.name)) >= Scarcest(req, b, LookupFree(free, b.name)))
  }

  lemma ResourceTotalOrder(req: Requests, a: Node, b: Node, free: map<string, Resources>)
    requires HasCapacity(a)
    requires HasCapacity(b) ==> Scarcest(req, a, LookupFree(free, a.name)) >= Scarcest(req, b, LookupFree(free, b.name))
    ensures ResourceTotal(req, a, free) >= ResourceTotal(req, b, free)
  {
    ResourcesCountTheScarcest(req, a, free);
    ResourcesCountTheScarcest(req, b, free);
    FractionBetween(LookupFree(free, a.name).cpu, req.cpu, a.allocatable.cpu);
    FractionBetween(LookupFree(free, a.name).memory, req.memory, a.allocatable.memory);
    hide ResourceTotal, FreeFraction;
  }

  /** Such a candidate never scores lower, through both normalizations. */
  lemma {:induction false} BetterCandidateScoresHigher(
    pod: Pod, req: Requests, candidates: seq<Node>, admissible: seq<nat>,
    free: map<string, Resources>, resident: map<string, seq<Pod>>, placed: map<string, seq<Pod>>, a: nat, b: nat)
    requires AreIndices(admissible, candidates) && a < |admissible| && b < |admissible|
    requires OffersAtLeast(pod, req, candidates[admissible[a]], candidates[admissible[b]], candidates, free, resident,
        placed)
    ensures Scores(pod, req, candidates, admissible, free, resident, placed)[a]
         >= Scores(pod, req, candidates, admissible, free, resident, placed)[b]
  {
    hide ToMax, ToRange, ResourceTotal, NodeAffinityWeight, InterPodScore, Highest, Lowest, Scarcest;
    var raw := RawNodeScores(pod, candidates, admissible);
    ToMaxOrder(raw[b], raw[a], Highest(raw, |raw|));
    var inter := RawPodScores(pod, candidates, admissible, resident, placed);
    ToRangeOrder(inter[b], inter[a], Lowest(inter, |inter|), Highest(inter, |inter|));
    ResourceTotalOrder(req, candidates[admissible[a]], candidates[admissible[b]], free);
  }
}
