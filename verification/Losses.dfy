/** What a drain costs, as totals over sets: every broken preference, every violated one and every worse
    destination counts its weight once. */
module Losses {
  import opened Options
  import opened Sums
  import opened Kube
  import opened PodRequests
  import opened Scoring
  import opened Placement
  import opened AffinityLoss
  import opened Filters

  // ---------------------------------------------------------------- preferred node affinity

  /** The preferred terms, among the first n, that the node satisfies, each with its weight. */
  ghost predicate AreMatched(m: map<int, int>, pod: Pod, node: Node, n: nat)
    requires n <= |pod.preferredNodeAffinity|
  {
    && (forall k :: k in m <==> 0 <= k < n && MatchesTerm(pod.preferredNodeAffinity[k].preference, node.labels))
    && forall k :: k in m ==> m[k] == pod.preferredNodeAffinity[k].weight
  }

  /** A node is worth the total weight of the preferred terms it satisfies. */
  lemma {:induction false} WeightIsTotal(pod: Pod, node: Node, n: nat) returns (m: map<int, int>)
    requires n <= |pod.preferredNodeAffinity|
    ensures AreMatched(m, pod, node, n) && NodeAffinityWeight(pod, node, n) == MapSum(m)
  {
    hide MatchesTerm;
    if n == 0 {
      m := map[];
    } else {
      m := WeightIsTotal(pod, node, n - 1);
      var t := pod.preferredNodeAffinity[n - 1];
      if MatchesTerm(t.preference, node.labels) {
        MapSumAdd(m, n - 1, t.weight);
        m := m[n - 1 := t.weight];
      }
    }
  }

  /** Where a pod of the plan goes, in either order. */
  function Target(a: Assignment, other: bool): Node {
    if other && a.altNode.Some? then a.altNode.value else a.node
  }

  ghost predicate IsWorse(node: Node, a: Assignment, other: bool) {
    WeightOn(a.pod, Target(a, other)) < WeightOn(a.pod, node)
  }

  /** The moves among the first n, in either order, to a worse node, each with the difference. */
  ghost predicate AreWorse(m: map<(nat, bool), int>, node: Node, plan: Combination, n: nat)
    requires n <= |plan|
  {
    && (forall x :: x in m <==> x.0 < n && IsWorse(node, plan[x.0], x.1))
    && forall x :: x in m ==> m[x] == WeightOn(plan[x.0].pod, node) - WeightOn(plan[x.0].pod, Target(plan[x.0], x.1))
  }

  lemma OneMoreMove(m: map<(nat, bool), int>, n: nat, other: bool, lost: int) returns (r: map<(nat, bool), int>)
    requires (n, other) !in m
    ensures r == (if lost > 0 then m[(n, other) := lost] else m)
    ensures MapSum(r) == MapSum(m) + (if lost > 0 then lost else 0)
  {
    r := m;
    if lost > 0 {
      MapSumAdd(m, (n, other), lost);
      r := m[(n, other) := lost];
    }
  }

  lemma BothMoves(before: map<(nat, bool), int>, node: Node, plan: Combination, n: nat)
    returns (m: map<(nat, bool), int>)
    requires n < |plan| && AreWorse(before, node, plan, n)
    ensures AreWorse(m, node, plan, n + 1)
    ensures MapSum(m)
         == MapSum(before) + NodeLoss(WeightOn(plan[n].pod, node), WeightOn(plan[n].pod, plan[n].node))
            + NodeLoss(WeightOn(plan[n].pod, node), WeightOn(plan[n].pod, AltNodeOf(plan[n])))
  {
    hide WeightOn, MapSum;
    var a, here := plan[n], WeightOn(plan[n].pod, node);
    var first := OneMoreMove(before, n, false, here - WeightOn(a.pod, a.node));
    m := OneMoreMove(first, n, true, here - WeightOn(a.pod, AltNodeOf(a)));
  }

  /** Over both orders, the plan costs the total by which the pods' destinations are worse than the node. */
  lemma {:induction false} NodeLossIsTotal(node: Node, plan: Combination, n: nat) returns (m: map<(nat, bool), int>)
    requires n <= |plan|
    ensures AreWorse(m, node, plan, n) && NodeLossSum(node, plan, n) == MapSum(m)
  {
    if n == 0 {
      m := map[];
    } else {
      m := NodeLossIsTotal(node, plan, n - 1);
      hide WeightOn, MapSum, AreWorse, NodeLoss;
      m := BothMoves(m, node, plan, n - 1);
    }
  }

  lemma HalfUpIs(x: int)
    requires x >= 0
    ensures 0 <= 2 * HalfUp(x) - x <= 1
  {
  }

  /** The expected cost is half of the total by which destinations are worse, an odd half rounded up. */
  lemma {:induction false} ExpectedNodeLossIsMean(node: Node, plan: Combination)
    ensures exists m ::
      AreWorse(m, node, plan, |plan|) && 0 <= 2 * HalfUp(NodeLossSum(node, plan, |plan|)) - MapSum(m) <= 1
  {
    var m := NodeLossIsTotal(node, plan, |plan|);
    NodeLossMeans(node, plan, |plan|);
    hide AreWorse, NodeLossSum, MapSum, WeightOn;
    HalfUpIs(MapSum(m));
    assert AreWorse(m, node, plan, |plan|);
  }

  // ---------------------------------------------------------------- preferred affinity between pods

  /** A preference of a that holds with b on the shared node, and that the destinations do not keep. */
  ghost predicate IsBroken(a: Pod, b: Pod, t: WeightedAffinityTerm, d: map<string, Node>) {
    && MatchesAffinityTerm(a, b, t.term)
    && !(a.Key() in d && b.Key() in d && SameTopologyDomain(d[a.Key()], d[b.Key()], t.term.topologyKey))
  }

  /** Pod x.0 prefers, by its term x.2, to be near pod x.1, and the destinations break this. */
  ghost predicate IsBrokenAt(pods: seq<Pod>, d: map<string, Node>, x: (nat, nat, nat)) {
    && x.0 < |pods| && x.1 < |pods| && x.0 != x.1 && x.2 < |pods[x.0].preferredPodAffinity|
    && IsBroken(pods[x.0], pods[x.1], pods[x.0].preferredPodAffinity[x.2], d)
  }

  ghost predicate HaveWeights(m: map<(nat, nat, nat), int>, pods: seq<Pod>) {
    forall x :: x in m ==>
      x.0 < |pods| && x.2 < |pods[x.0].preferredPodAffinity|
      && m[x] == pods[x.0].preferredPodAffinity[x.2].weight
  }

  /** All broken preferences of the first n pods, each with its weight. */
  ghost predicate AreBroken(m: map<(nat, nat, nat), int>, pods: seq<Pod>, d: map<string, Node>, n: nat) {
    HaveWeights(m, pods) && forall x :: x in m <==> x.0 < n && IsBrokenAt(pods, d, x)
  }

  ghost predicate AreBrokenOf(m: map<(nat, nat, nat), int>, pods: seq<Pod>, d: map<string, Node>, i: nat, n: nat) {
    HaveWeights(m, pods) && forall x :: x in m <==> x.0 == i && x.1 < n && IsBrokenAt(pods, d, x)
  }

  ghost predicate AreBrokenBy(m: map<(nat, nat, nat), int>, pods: seq<Pod>, d: map<string, Node>, i: nat, j: nat,
                              n: nat)
  {
    HaveWeights(m, pods) && forall x :: x in m <==> x.0 == i && x.1 == j && x.2 < n && IsBrokenAt(pods, d, x)
  }

  lemma {:induction false} PairLossIsTotal(pods: seq<Pod>, d: map<string, Node>, i: nat, j: nat, n: nat)
    returns (m: map<(nat, nat, nat), int>)
    requires i < |pods| && j < |pods| && i != j && n <= |pods[i].preferredPodAffinity|
    ensures AreBrokenBy(m, pods, d, i, j, n) && PairLoss(pods[i], pods[j], d, n) == MapSum(m)
  {
    if n == 0 {
      m := map[];
    } else {
      m := PairLossIsTotal(pods, d, i, j, n - 1);
      var t := pods[i].preferredPodAffinity[n - 1];
      assert TermLoss(pods[i], pods[j], t, d) == if IsBroken(pods[i], pods[j], t, d) then t.weight else 0;
      hide IsBroken, TermLoss;
      if IsBroken(pods[i], pods[j], t, d) {
        MapSumAdd(m, (i, j, n - 1), t.weight);
        hide MapSum;
        m := m[(i, j, n - 1) := t.weight];
      }
    }
  }

  lemma NextPair(a: map<(nat, nat, nat), int>, b: map<(nat, nat, nat), int>, pods: seq<Pod>, d: map<string, Node>,
                 i: nat, n: nat) returns (m: map<(nat, nat, nat), int>)
    requires i < |pods| && n < |pods| && n != i && AreBrokenOf(a, pods, d, i, n)
    requires AreBrokenBy(b, pods, d, i, n, |pods[i].preferredPodAffinity|)
    ensures AreBrokenOf(m, pods, d, i, n + 1) && MapSum(m) == MapSum(a) + MapSum(b)
  {
    hide IsBroken, HaveWeights;
    m := Joined(a, b, pods);
  }

  lemma {:induction false} PodLossIsTotal(pods: seq<Pod>, d: map<string, Node>, i: nat, n: nat)
    returns (m: map<(nat, nat, nat), int>)
    requires i < |pods| && n <= |pods|
    ensures AreBrokenOf(m, pods, d, i, n) && PodLoss(pods, i, d, n) == MapSum(m)
  {
    hide PairLoss, IsBroken;
    if n == 0 {
      m := map[];
    } else {
      m := PodLossIsTotal(pods, d, i, n - 1);
      if n - 1 != i {
        var piece := PairLossIsTotal(pods, d, i, n - 1, |pods[i].preferredPodAffinity|);
        m := NextPair(m, piece, pods, d, i, n - 1);
      }
    }
  }

  lemma Joined(a: map<(nat, nat, nat), int>, b: map<(nat, nat, nat), int>, pods: seq<Pod>)
    returns (m: map<(nat, nat, nat), int>)
    requires a.Keys !! b.Keys && HaveWeights(a, pods) && HaveWeights(b, pods)
    ensures (forall x :: x in m <==> x in a || x in b) && HaveWeights(m, pods) && MapSum(m) == MapSum(a) + MapSum(b)
  {
    MapSumUnion(a, b);
    m := a + b;
  }

  lemma {:induction false} OrderLossIsTotal(pods: seq<Pod>, d: map<string, Node>, n: nat)
    returns (m: map<(nat, nat, nat), int>)
    requires n <= |pods|
    ensures AreBroken(m, pods, d, n) && OrderLoss(pods, d, n) == MapSum(m)
  {
    hide PodLoss, IsBroken;
    if n == 0 {
      m := map[];
    } else {
      m := OrderLossIsTotal(pods, d, n - 1);
      var piece := PodLossIsTotal(pods, d, n - 1, |pods|);
      hide HaveWeights;
      m := Joined(m, piece, pods);
    }
  }

  /** The plan's last word on the pod with this key. */
  ghost predicate IsLastOf(plan: Combination, key: string, i: nat) {
    i < |plan| && plan[i].pod.Key() == key && forall j :: i < j < |plan| ==> plan[j].pod.Key() != key
  }

  /** The destinations of the plan's pods in one of the two orders. */
  ghost predicate AreTargets(d: map<string, Node>, plan: Combination, other: bool) {
    && (forall key :: key in d ==> exists i: nat :: IsLastOf(plan, key, i) && d[key] == Target(plan[i], other))
    && forall i :: 0 <= i < |plan| ==> plan[i].pod.Key() in d
  }

  lemma {:induction false} TargetsOf(plan: Combination, n: nat)
    requires n <= |plan|
    ensures AreTargets(Destination(plan, n), plan[..n], false) && AreTargets(AltDestination(plan, n), plan[..n], true)
  {
    if n > 0 {
      TargetsOf(plan, n - 1);
      assert plan[..n][..n - 1] == plan[..n - 1] && plan[..n][n - 1] == plan[n - 1];
      OneMoreTarget(Destination(plan, n - 1), plan[..n], false);
      OneMoreTarget(AltDestination(plan, n - 1), plan[..n], true);
    }
  }

  lemma OneMoreTarget(d: map<string, Node>, plan: Combination, other: bool)
    requires plan != [] && AreTargets(d, plan[..|plan| - 1], other)
    ensures AreTargets(d[plan[|plan| - 1].pod.Key() := Target(plan[|plan| - 1], other)], plan, other)
  {
    hide Target;
    var n, rest, last := |plan| - 1, plan[..|plan| - 1], plan[|plan| - 1];
    var e := d[last.pod.Key() := Target(last, other)];
    forall key | key in e ensures exists i: nat :: IsLastOf(plan, key, i) && e[key] == Target(plan[i], other) {
      if key == last.pod.Key() {
        assert IsLastOf(plan, key, n);
        hide IsLastOf;
      } else {
        var i: nat :| IsLastOf(rest, key, i) && d[key] == Target(rest[i], other);
        assert rest[i] == plan[i];
        hide IsLastOf;
        LastOfLonger(plan, key, i);
      }
    }
    assert forall i :: 0 <= i < n ==> rest[i].pod.Key() in d;
  }

  lemma LastOfLonger(plan: Combination, key: string, i: nat)
    requires plan != [] && plan[|plan| - 1].pod.Key() != key && IsLastOf(plan[..|plan| - 1], key, i)
    ensures IsLastOf(plan, key, i)
  {
    assert forall j :: i <= j < |plan| - 1 ==> plan[..|plan| - 1][j] == plan[j];
  }

  lemma LossFromZero(pods: seq<Pod>, d: map<string, Node>)
    requires PositiveWeights(pods)
    ensures OrderLoss(pods, d, |pods|) >= 0
  {
    OrderLossMeans(pods, d, |pods|);
  }

  /** The total weight of the preferences that the plan breaks in one of the orders. */
  ghost predicate IsBrokenWeight(total: int, pods: seq<Pod>, plan: Combination, other: bool) {
    exists d, m :: AreTargets(d, plan, other) && AreBroken(m, pods, d, |pods|) && total == MapSum(m)
  }

  lemma OrderLossIsBroken(pods: seq<Pod>, plan: Combination, d: map<string, Node>, other: bool)
    requires AreTargets(d, plan, other)
    ensures IsBrokenWeight(OrderLoss(pods, d, |pods|), pods, plan, other)
  {
    var m := OrderLossIsTotal(pods, d, |pods|);
    hide OrderLoss, AreBroken, MapSum, AreTargets;
    assert AreTargets(d, plan, other) && AreBroken(m, pods, d, |pods|);
  }

  lemma BrokenWeights(pods: seq<Pod>, plan: Combination)
    ensures IsBrokenWeight(OrderLoss(pods, Destination(plan, |plan|), |pods|), pods, plan, false)
    ensures IsBrokenWeight(OrderLoss(pods, AltDestination(plan, |plan|), |pods|), pods, plan, true)
  {
    hide *;
    assert plan[..|plan|] == plan;
    TargetsOf(plan, |plan|);
    OrderLossIsBroken(pods, plan, Destination(plan, |plan|), false);
    OrderLossIsBroken(pods, plan, AltDestination(plan, |plan|), true);
  }

  /** Half the total weight, over both orders, of the preferences that the plan breaks, an odd half rounded
      up. */
  ghost predicate IsMeanBrokenWeight(loss: int, pods: seq<Pod>, plan: Combination) {
    exists x, y ::
      IsBrokenWeight(x, pods, plan, false) && IsBrokenWeight(y, pods, plan, true) && 0 <= 2 * loss - x - y <= 1
  }

  lemma MeanOfBoth(x: int, y: int, loss: int, pods: seq<Pod>, plan: Combination)
    requires IsBrokenWeight(x, pods, plan, false) && IsBrokenWeight(y, pods, plan, true)
    requires x + y >= 0 && loss == HalfUp(x + y)
    ensures IsMeanBrokenWeight(loss, pods, plan)
  {
    HalfUpIs(x + y);
    hide IsBrokenWeight, HalfUp;
  }

  lemma ExpectedLossParts(pods: seq<Pod>, plan: Combination) returns (x: int, y: int)
    requires PositiveWeights(pods)
    ensures x == OrderLoss(pods, Destination(plan, |plan|), |pods|) >= 0
    ensures y == OrderLoss(pods, AltDestination(plan, |plan|), |pods|) >= 0
    ensures ExpectedLoss(pods, plan) == HalfUp(x + y)
  {
    x := OrderLoss(pods, Destination(plan, |plan|), |pods|);
    y := OrderLoss(pods, AltDestination(plan, |plan|), |pods|);
    LossFromZero(pods, Destination(plan, |plan|));
    LossFromZero(pods, AltDestination(plan, |plan|));
    hide OrderLoss, HalfUp, Destination, AltDestination, PositiveWeights;
  }

  /** The expected loss is the mean weight, over both orders, of the preferences that the plan's destinations
      break. */
  lemma {:induction false} ExpectedLossIsMean(pods: seq<Pod>, plan: Combination)
    requires PositiveWeights(pods)
    ensures IsMeanBrokenWeight(ExpectedLoss(pods, plan), pods, plan)
  {
    hide *;
    var x, y := ExpectedLossParts(pods, plan);
    BrokenWeights(pods, plan);
    MeanOfBoth(x, y, ExpectedLoss(pods, plan), pods, plan);
  }

  // ---------------------------------------------------------------- preferred anti-affinity

  /** One of the pod's preferred anti-affinity terms speaks of a neighbour that is another pod. */
  ghost predicate IsViolated(pod: Pod, other: Pod, t: WeightedAffinityTerm) {
    other.Key() != pod.Key() && MatchesAffinityTerm(pod, other, t.term)
  }

  /** Term x.1 of the moved pod x.0 speaks of its neighbour x.2 on the destination. */
  ghost predicate IsViolatedAt(plan: Combination, cluster: Cluster, x: (nat, nat, nat)) {
    && x.0 < |plan| && x.1 < |plan[x.0].pod.preferredPodAntiAffinity|
    && x.2 < |Neighbours(plan, cluster, plan[x.0].node.name)|
    && IsViolated(plan[x.0].pod, Neighbours(plan, cluster, plan[x.0].node.name)[x.2],
         plan[x.0].pod.preferredPodAntiAffinity[x.1])
  }

  ghost predicate HaveAntiWeights(m: map<(nat, nat, nat), int>, plan: Combination) {
    forall x :: x in m ==>
      x.0 < |plan| && x.1 < |plan[x.0].pod.preferredPodAntiAffinity|
      && m[x] == plan[x.0].pod.preferredPodAntiAffinity[x.1].weight
  }

  /** All violated terms of the first n moved pods, each with its weight once for every neighbour. */
  ghost predicate AreViolated(m: map<(nat, nat, nat), int>, plan: Combination, cluster: Cluster, n: nat) {
    HaveAntiWeights(m, plan) && forall x :: x in m <==> x.0 < n && IsViolatedAt(plan, cluster, x)
  }

  ghost predicate AreViolatedOf(m: map<(nat, nat, nat), int>, plan: Combination, cluster: Cluster, i: nat, n: nat) {
    HaveAntiWeights(m, plan) && forall x :: x in m <==> x.0 == i && x.1 < n && IsViolatedAt(plan, cluster, x)
  }

  ghost predicate AreViolatedBy(m: map<(nat, nat, nat), int>, plan: Combination, cluster: Cluster, i: nat, k: nat,
                                n: nat)
  {
    HaveAntiWeights(m, plan)
    && forall x :: x in m <==> x.0 == i && x.1 == k && x.2 < n && IsViolatedAt(plan, cluster, x)
  }

  lemma {:induction false} TermViolationsAreTotal(plan: Combination, cluster: Cluster, i: nat, k: nat, n: nat)
    returns (m: map<(nat, nat, nat), int>)
    requires i < |plan| && k < |plan[i].pod.preferredPodAntiAffinity|
    requires n <= |Neighbours(plan, cluster, plan[i].node.name)|
    ensures AreViolatedBy(m, plan, cluster, i, k, n)
    ensures TermViolations(plan[i].pod, plan[i].pod.preferredPodAntiAffinity[k],
        Neighbours(plan, cluster, plan[i].node.name), n) == MapSum(m)
  {
    hide MatchesAffinityTerm, Neighbours;
    if n == 0 {
      m := map[];
    } else {
      m := TermViolationsAreTotal(plan, cluster, i, k, n - 1);
      var t := plan[i].pod.preferredPodAntiAffinity[k];
      if IsViolated(plan[i].pod, Neighbours(plan, cluster, plan[i].node.name)[n - 1], t) {
        MapSumAdd(m, (i, k, n - 1), t.weight);
        m := m[(i, k, n - 1) := t.weight];
      }
      hide IsViolated;
    }
  }

  lemma JoinedAnti(a: map<(nat, nat, nat), int>, b: map<(nat, nat, nat), int>, plan: Combination)
    returns (m: map<(nat, nat, nat), int>)
    requires a.Keys !! b.Keys && HaveAntiWeights(a, plan) && HaveAntiWeights(b, plan)
    ensures (forall x :: x in m <==> x in a || x in b) && HaveAntiWeights(m, plan)
    ensures MapSum(m) == MapSum(a) + MapSum(b)
  {
    MapSumUnion(a, b);
    m := a + b;
  }

  lemma {:induction false} PodViolationsAreTotal(plan: Combination, cluster: Cluster, i: nat, n: nat)
    returns (m: map<(nat, nat, nat), int>)
    requires i < |plan| && n <= |plan[i].pod.preferredPodAntiAffinity|
    ensures AreViolatedOf(m, plan, cluster, i, n)
    ensures PodViolations(plan[i].pod, Neighbours(plan, cluster, plan[i].node.name), n) == MapSum(m)
  {
    hide TermViolations, IsViolated, Neighbours;
    if n == 0 {
      m := map[];
    } else {
      m := PodViolationsAreTotal(plan, cluster, i, n - 1);
      var piece := TermViolationsAreTotal(plan, cluster, i, n - 1, |Neighbours(plan, cluster, plan[i].node.name)|);
      hide HaveAntiWeights;
      m := JoinedAnti(m, piece, plan);
    }
  }

  lemma NextMove(a: map<(nat, nat, nat), int>, b: map<(nat, nat, nat), int>, plan: Combination, cluster: Cluster,
                 n: nat)
    returns (m: map<(nat, nat, nat), int>)
    requires n < |plan| && AreViolated(a, plan, cluster, n)
    requires AreViolatedOf(b, plan, cluster, n, |plan[n].pod.preferredPodAntiAffinity|)
    ensures AreViolated(m, plan, cluster, n + 1) && MapSum(m) == MapSum(a) + MapSum(b)
  {
    hide HaveAntiWeights, IsViolated, Neighbours;
    m := JoinedAnti(a, b, plan);
  }

  lemma NoMoves(plan: Combination, cluster: Cluster)
    ensures AreViolated(map[], plan, cluster, 0)
  {
  }

  lemma {:induction false} ViolationsAreTotal(names: set<string>, plan: Combination, cluster: Cluster, n: nat)
    returns (m: map<(nat, nat, nat), int>)
    requires n <= |plan| && forall i :: 0 <= i < |plan| ==> plan[i].node.name in names
    ensures AreViolated(m, plan, cluster, n) && ViolationsOn(names, plan, cluster, n) == MapSum(m)
  {
    hide PodViolations, Neighbours, AreViolated, AreViolatedOf;
    if n == 0 {
      m := map[];
      NoMoves(plan, cluster);
    } else {
      var before := ViolationsAreTotal(names, plan, cluster, n - 1);
      var piece := PodViolationsAreTotal(plan, cluster, n - 1, |plan[n - 1].pod.preferredPodAntiAffinity|);
      m := NextMove(before, piece, plan, cluster, n - 1);
      hide MapSum;
    }
  }

  /** The neighbours on a destination are the residents that are no system pods, and the pods the plan sends
      there. */
  lemma {:induction false} NeighboursAre(plan: Combination, cluster: Cluster, name: string, q: Pod)
    ensures q in Neighbours(plan, cluster, name) <==>
            || (q in cluster.pods && q.nodeName == name && !IsSystemPod(q))
            || exists i :: 0 <= i < |plan| && plan[i].node.name == name && plan[i].pod == q
  {
    ResidentsAre(cluster.pods, name, q);
    var at := PlacesOn(plan, name);
    var arrivals := PlacedOn(plan, name, |plan|);
    hide IsSystemPod, PlacedOn, WithoutSystemPods, PodsOn;
    if q in arrivals {
      var k :| 0 <= k < |arrivals| && arrivals[k] == q;
      assert plan[at[k]].pod == q;
    }
    if i :| 0 <= i < |plan| && plan[i].node.name == name && plan[i].pod == q {
      var k :| 0 <= k < |at| && at[k] == i;
      assert arrivals[k] == q;
    }
  }

  /** The plan creates the total weight of the terms of moved pods that speak of a neighbour at their
      destination. */
  lemma {:induction false} CreatedAreTotal(plan: Combination, cluster: Cluster)
    ensures exists m :: AreViolated(m, plan, cluster, |plan|) && CreatedViolations(plan, cluster) == MapSum(m)
  {
    var m := ViolationsAreTotal(DestinationNames(plan), plan, cluster, |plan|);
    hide AreViolated, ViolationsOn, DestinationNames;
    assert AreViolated(m, plan, cluster, |plan|);
  }
}
