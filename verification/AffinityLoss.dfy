/** The preferred affinities a drain would cost, expected over the two orders in which the scheduler may
    place the evicted pods, and the preferred anti-affinity it would violate. */
module AffinityLoss {
  import opened Options
  import opened Kube
  import opened Scoring
  import opened PodRequests
  import opened Placement

  // ---------------------------------------------------------------- destinations

  function Destination(plan: Combination, n: nat): map<string, Node>
    requires n <= |plan|
  {
    if n == 0 then map[] else Destination(plan, n - 1)[plan[n - 1].pod.Key() := plan[n - 1].node]
  }

  function AltNodeOf(a: Assignment): Node {
    if a.altNode.Some? then a.altNode.value else a.node
  }

  function AltDestination(plan: Combination, n: nat): map<string, Node>
    requires n <= |plan|
  {
    if n == 0 then map[] else AltDestination(plan, n - 1)[plan[n - 1].pod.Key() := AltNodeOf(plan[n - 1])]
  }

  /** A pod that is in no plan goes down with its node. */
  predicate StillTogether(a: Pod, b: Pod, destination: map<string, Node>, topologyKey: string) {
    && a.Key() in destination && b.Key() in destination
    && SameTopologyDomain(destination[a.Key()], destination[b.Key()], topologyKey)
  }

  // ---------------------------------------------------------------- the loss in one order

  function TermLoss(a: Pod, b: Pod, t: WeightedAffinityTerm, destination: map<string, Node>): int {
    if MatchesAffinityTerm(a, b, t.term) && !StillTogether(a, b, destination, t.term.topologyKey) then t.weight else 0
  }

  function PairLoss(a: Pod, b: Pod, destination: map<string, Node>, n: nat): int
    requires n <= |a.preferredPodAffinity|
  {
    if n == 0 then 0
    else PairLoss(a, b, destination, n - 1) + TermLoss(a, b, a.preferredPodAffinity[n - 1], destination)
  }

  /** What pod i loses with respect to the first n pods. */
  function PodLoss(pods: seq<Pod>, i: nat, destination: map<string, Node>, n: nat): int
    requires i < |pods| && n <= |pods|
  {
    if n == 0 then 0
    else PodLoss(pods, i, destination, n - 1)
         + if n - 1 == i then 0 else PairLoss(pods[i], pods[n - 1], destination, |pods[i].preferredPodAffinity|)
  }

  /** What the first n pods lose. */
  function OrderLoss(pods: seq<Pod>, destination: map<string, Node>, n: nat): int
    requires n <= |pods|
  {
    if n == 0 then 0 else OrderLoss(pods, destination, n - 1) + PodLoss(pods, n - 1, destination, |pods|)
  }

  /** Half, rounded towards zero after adding one. */
  function HalfUp(x: int): int {
    if x + 1 >= 0 then (x + 1) / 2 else -((-x - 1) / 2)
  }

  function ExpectedLoss(pods: seq<Pod>, plan: Combination): int {
    HalfUp(OrderLoss(pods, Destination(plan, |plan|), |pods|) + OrderLoss(pods, AltDestination(plan, |plan|), |pods|))
  }

  // ---------------------------------------------------------------- the loops

  method PairLossInBothOrders(a: Pod, b: Pod, destination: map<string, Node>, alt: map<string, Node>)
    returns (lost: int)
    ensures lost == PairLoss(a, b, destination, |a.preferredPodAffinity|)
             + PairLoss(a, b, alt, |a.preferredPodAffinity|)
  {
    lost := 0;
    for k := 0 to |a.preferredPodAffinity|
      invariant lost == PairLoss(a, b, destination, k) + PairLoss(a, b, alt, k)
    {
      var t := a.preferredPodAffinity[k];
      if !MatchesAffinityTerm(a, b, t.term) { continue; }
      if !StillTogether(a, b, destination, t.term.topologyKey) { lost := lost + t.weight; }
      if !StillTogether(a, b, alt, t.term.topologyKey) { lost := lost + t.weight; }
    }
  }

  /** existing: the pods on the node, system pods left out. */
  method GetPreferredInterPodAffinity(existing: seq<Pod>, plan: Combination) returns (loss: int)
    ensures loss == ExpectedLoss(existing, plan)
  {
    hide PairLoss, MatchesAffinityTerm, StillTogether;
    var destination: map<string, Node>, alt: map<string, Node> := map[], map[];
    for i := 0 to |plan|
      invariant destination == Destination(plan, i) && alt == AltDestination(plan, i)
    {
      destination := destination[plan[i].pod.Key() := plan[i].node];
      alt := alt[plan[i].pod.Key() := AltNodeOf(plan[i])];
    }
    var lost := 0;
    for i := 0 to |existing|
      invariant lost == OrderLoss(existing, destination, i) + OrderLoss(existing, alt, i)
    {
      for j := 0 to |existing|
        invariant lost == OrderLoss(existing, destination, i) + OrderLoss(existing, alt, i)
                          + PodLoss(existing, i, destination, j) + PodLoss(existing, i, alt, j)
      {
        if i == j { continue; }
        var pair := PairLossInBothOrders(existing[i], existing[j], destination, alt);
        lost := lost + pair;
      }
    }
    return HalfUp(lost);
  }

  // ---------------------------------------------------------------- what the loss means

  ghost predicate PositiveWeights(pods: seq<Pod>) {
    forall i, k :: 0 <= i < |pods| && 0 <= k < |pods[i].preferredPodAffinity| ==>
      pods[i].preferredPodAffinity[k].weight > 0
  }

  /** Every preference of a for b that holds on the shared node holds after the move. */
  ghost predicate PairKept(a: Pod, b: Pod, destination: map<string, Node>) {
    forall k :: 0 <= k < |a.preferredPodAffinity| && MatchesAffinityTerm(a, b, a.preferredPodAffinity[k].term) ==>
      StillTogether(a, b, destination, a.preferredPodAffinity[k].term.topologyKey)
  }

  ghost predicate AllKept(pods: seq<Pod>, destination: map<string, Node>) {
    forall i, j :: 0 <= i < |pods| && 0 <= j < |pods| && i != j ==> PairKept(pods[i], pods[j], destination)
  }

  /** No destination at all: every pair is broken. */
  function Nowhere(): map<string, Node> {
    map[]
  }

  lemma {:induction false} PairLossMeans(a: Pod, b: Pod, destination: map<string, Node>, n: nat)
    requires n <= |a.preferredPodAffinity|
    requires forall k :: 0 <= k < |a.preferredPodAffinity| ==> a.preferredPodAffinity[k].weight > 0
    ensures 0 <= PairLoss(a, b, destination, n) <= PairLoss(a, b, Nowhere(), n)
    ensures PairLoss(a, b, destination, n) == 0 <==>
            forall k :: 0 <= k < n && MatchesAffinityTerm(a, b, a.preferredPodAffinity[k].term) ==>
              StillTogether(a, b, destination, a.preferredPodAffinity[k].term.topologyKey)
  {
    if n > 0 {
      PairLossMeans(a, b, destination, n - 1);
      var t := a.preferredPodAffinity[n - 1];
      assert TermLoss(a, b, t, Nowhere()) == if MatchesAffinityTerm(a, b, t.term) then t.weight else 0;
    }
  }

  lemma {:induction false} PodLossMeans(pods: seq<Pod>, i: nat, destination: map<string, Node>, n: nat)
    requires PositiveWeights(pods) && i < |pods| && n <= |pods|
    ensures 0 <= PodLoss(pods, i, destination, n) <= PodLoss(pods, i, Nowhere(), n)
    ensures PodLoss(pods, i, destination, n) == 0 <==>
            forall j :: 0 <= j < n && j != i ==> PairKept(pods[i], pods[j], destination)
  {
    hide MatchesAffinityTerm, StillTogether, PairLoss;
    if n > 0 {
      PodLossMeans(pods, i, destination, n - 1);
      PairLossMeans(pods[i], pods[n - 1], destination, |pods[i].preferredPodAffinity|);
      assert PairLoss(pods[i], pods[n - 1], destination, |pods[i].preferredPodAffinity|) == 0
        <==> PairKept(pods[i], pods[n - 1], destination);
    }
  }

  lemma {:induction false} OrderLossMeans(pods: seq<Pod>, destination: map<string, Node>, n: nat)
    requires PositiveWeights(pods) && n <= |pods|
    ensures 0 <= OrderLoss(pods, destination, n) <= OrderLoss(pods, Nowhere(), n)
    ensures OrderLoss(pods, destination, n) == 0 <==>
            forall i, j :: 0 <= i < n && 0 <= j < |pods| && i != j ==> PairKept(pods[i], pods[j], destination)
  {
    hide PairKept, PodLoss, PositiveWeights;
    if n > 0 {
      OrderLossMeans(pods, destination, n - 1);
      PodLossMeans(pods, n - 1, destination, |pods|);
    }
  }

  /** The drain costs nothing exactly when every satisfied preference survives it in both orders; it
      never costs more than all preferences satisfied on the node weigh. */
  lemma {:induction false} NoLossIff(pods: seq<Pod>, plan: Combination)
    requires PositiveWeights(pods)
    ensures ExpectedLoss(pods, plan) == 0 <==>
            AllKept(pods, Destination(plan, |plan|)) && AllKept(pods, AltDestination(plan, |plan|))
    ensures 0 <= ExpectedLoss(pods, plan) <= OrderLoss(pods, Nowhere(), |pods|)
  {
    OrderLossMeans(pods, Destination(plan, |plan|), |pods|);
    OrderLossMeans(pods, AltDestination(plan, |plan|), |pods|);
    hide PairKept, OrderLoss, PositiveWeights, Destination, AltDestination;
  }

  /** The plan with the two orders exchanged. */
  function Exchanged(plan: Combination): Combination {
    seq(|plan|, i requires 0 <= i < |plan| => Assignment(plan[i].pod, AltNodeOf(plan[i]), Some(plan[i].node)))
  }

  lemma {:induction false} ExchangedDestinations(plan: Combination, n: nat)
    requires n <= |plan|
    ensures Destination(Exchanged(plan), n) == AltDestination(plan, n)
    ensures AltDestination(Exchanged(plan), n) == Destination(plan, n)
  {
    if n > 0 { ExchangedDestinations(plan, n - 1); }
  }

  /** Neither order is preferred. */
  lemma {:induction false} LossIsSymmetric(pods: seq<Pod>, plan: Combination)
    ensures ExpectedLoss(pods, Exchanged(plan)) == ExpectedLoss(pods, plan)
  {
    ExchangedDestinations(plan, |plan|);
    hide OrderLoss, Destination, AltDestination;
  }

  lemma {:induction false} SameDestinations(plan: Combination, n: nat)
    requires n <= |plan| && forall i :: 0 <= i < |plan| ==> AltNodeOf(plan[i]) == plan[i].node
    ensures AltDestination(plan, n) == Destination(plan, n)
  {
    if n > 0 { SameDestinations(plan, n - 1); }
  }

  /** When both orders agree, the loss is that of the one order, unrounded. */
  lemma {:induction false} LossOfOneOrder(pods: seq<Pod>, plan: Combination)
    requires PositiveWeights(pods) && forall i :: 0 <= i < |plan| ==> AltNodeOf(plan[i]) == plan[i].node
    ensures ExpectedLoss(pods, plan) == OrderLoss(pods, Destination(plan, |plan|), |pods|)
  {
    SameDestinations(plan, |plan|);
    OrderLossMeans(pods, Destination(plan, |plan|), |pods|);
    hide OrderLoss, Destination, AltDestination;
  }

  // ---------------------------------------------------------------- preferred node affinity

  function NodeLoss(here: int, there: int): int {
    if here > there then here - there else 0
  }

  function WeightOn(pod: Pod, node: Node): int {
    NodeAffinityWeight(pod, node, |pod.preferredNodeAffinity|)
  }

  /** What the first n pods of the plan lose by leaving the node, over both orders. */
  function NodeLossSum(node: Node, plan: Combination, n: nat): int
    requires n <= |plan|
  {
    if n == 0 then 0
    else
      var a := plan[n - 1];
      NodeLossSum(node, plan, n - 1) + NodeLoss(WeightOn(a.pod, node), WeightOn(a.pod, a.node))
      + NodeLoss(WeightOn(a.pod, node), WeightOn(a.pod, AltNodeOf(a)))
  }

  method GetPreferredNodeAffinity(node: Node, plan: Combination) returns (loss: int)
    ensures loss == HalfUp(NodeLossSum(node, plan, |plan|))
  {
    hide WeightOn, NodeLoss;
    var lost := 0;
    for i := 0 to |plan|
      invariant lost == NodeLossSum(node, plan, i)
    {
      var here := WeightOn(plan[i].pod, node);
      lost := lost + NodeLoss(here, WeightOn(plan[i].pod, plan[i].node));
      lost := lost + NodeLoss(here, WeightOn(plan[i].pod, AltNodeOf(plan[i])));
    }
    return HalfUp(lost);
  }

  lemma {:induction false} NodeLossMeans(node: Node, plan: Combination, n: nat)
    requires n <= |plan|
    ensures NodeLossSum(node, plan, n) >= 0
    ensures NodeLossSum(node, plan, n) == 0 <==>
            forall i :: 0 <= i < n ==> WeightOn(plan[i].pod, node) <= WeightOn(plan[i].pod, plan[i].node)
                                       && WeightOn(plan[i].pod, node) <= WeightOn(plan[i].pod, AltNodeOf(plan[i]))
  {
    hide WeightOn;
    if n > 0 { NodeLossMeans(node, plan, n - 1); }
  }

  /** The drain costs no preferred node affinity exactly when no pod is worse off in either order. */
  lemma {:induction false} NoNodeLossIff(node: Node, plan: Combination)
    ensures HalfUp(NodeLossSum(node, plan, |plan|)) == 0 <==>
            forall i :: 0 <= i < |plan| ==> WeightOn(plan[i].pod, node) <= WeightOn(plan[i].pod, plan[i].node)
                                            && WeightOn(plan[i].pod, node) <= WeightOn(plan[i].pod, AltNodeOf(plan[i]))
  {
    NodeLossMeans(node, plan, |plan|);
    hide WeightOn, NodeLossSum;
  }

  // ---------------------------------------------------------------- preferred anti-affinity

  /** Who shares a node after the move: its residents and the pods the plan puts there. */
  function Neighbours(plan: Combination, cluster: Cluster, name: string): seq<Pod> {
    WithoutSystemPods(PodsOn(cluster.pods, name)) + PlacedOn(plan, name, |plan|)
  }

  function Violation(pod: Pod, other: Pod, t: WeightedAffinityTerm): int {
    if other.Key() != pod.Key() && MatchesAffinityTerm(pod, other, t.term) then t.weight else 0
  }

  function TermViolations(pod: Pod, t: WeightedAffinityTerm, others: seq<Pod>, n: nat): int
    requires n <= |others|
  {
    if n == 0 then 0 else TermViolations(pod, t, others, n - 1) + Violation(pod, others[n - 1], t)
  }

  /** The weight of the first n anti-affinity terms of the pod that the others match. */
  function PodViolations(pod: Pod, others: seq<Pod>, n: nat): int
    requires n <= |pod.preferredPodAntiAffinity|
  {
    if n == 0 then 0
    else PodViolations(pod, others, n - 1) + TermViolations(pod, pod.preferredPodAntiAffinity[n - 1], others, |others|)
  }

  function AllViolations(pod: Pod, others: seq<Pod>): int {
    PodViolations(pod, others, |pod.preferredPodAntiAffinity|)
  }

  /** What the first n moves create on the given destinations. */
  function ViolationsOn(names: set<string>, plan: Combination, cluster: Cluster, n: nat): int
    requires n <= |plan|
  {
    if n == 0 then 0
    else
      var a := plan[n - 1];
      ViolationsOn(names, plan, cluster, n - 1)
      + if a.node.name in names then AllViolations(a.pod, Neighbours(plan, cluster, a.node.name)) else 0
  }

  function DestinationNames(plan: Combination): set<string> {
    set i | 0 <= i < |plan| :: plan[i].node.name
  }

  /** The preferred anti-affinity violated by the plan, move by move. */
  function CreatedViolations(plan: Combination, cluster: Cluster): int {
    ViolationsOn(DestinationNames(plan), plan, cluster, |plan|)
  }

  function GroupViolations(moving: seq<Pod>, others: seq<Pod>, n: nat): int
    requires n <= |moving|
  {
    if n == 0 then 0 else GroupViolations(moving, others, n - 1) + AllViolations(moving[n - 1], others)
  }

  lemma {:induction false} GroupOfExtension(moving: seq<Pod>, pod: Pod, others: seq<Pod>, n: nat)
    requires n <= |moving|
    ensures GroupViolations(moving + [pod], others, n) == GroupViolations(moving, others, n)
  {
    hide AllViolations;
    if n > 0 { GroupOfExtension(moving, pod, others, n - 1); }
  }

  /** One more destination adds the violations of its group. */
  lemma {:induction false} OneMoreGroup(names: set<string>, name: string, plan: Combination, cluster: Cluster, n: nat)
    requires n <= |plan| && name !in names
    ensures ViolationsOn(names + {name}, plan, cluster, n)
         == ViolationsOn(names, plan, cluster, n)
            + GroupViolations(PlacedOn(plan, name, n), Neighbours(plan, cluster, name), |PlacedOn(plan, name, n)|)
  {
    hide AllViolations, Neighbours;
    if n > 0 {
      OneMoreGroup(names, name, plan, cluster, n - 1);
      var before, a := PlacedOn(plan, name, n - 1), plan[n - 1];
      if a.node.name == name {
        GroupOfExtension(before, a.pod, Neighbours(plan, cluster, name), |before|);
        assert PlacedOn(plan, name, n) == before + [a.pod];
      } else {
        assert PlacedOn(plan, name, n) == before;
      }
    }
  }

  method GroupLoop(moving: seq<Pod>, neighbours: seq<Pod>) returns (created: int)
    ensures created == GroupViolations(moving, neighbours, |moving|)
  {
    created := 0;
    for i := 0 to |moving|
      invariant created == GroupViolations(moving, neighbours, i)
    {
      var pod := moving[i];
      for k := 0 to |pod.preferredPodAntiAffinity|
        invariant created == GroupViolations(moving, neighbours, i) + PodViolations(pod, neighbours, k)
      {
        var t := pod.preferredPodAntiAffinity[k];
        for j := 0 to |neighbours|
          invariant created == GroupViolations(moving, neighbours, i) + PodViolations(pod, neighbours, k)
                               + TermViolations(pod, t, neighbours, j)
        {
          if neighbours[j].Key() == pod.Key() { continue; }
          if MatchesAffinityTerm(pod, neighbours[j], t.term) { created := created + t.weight; }
        }
      }
    }
  }

  /** Destination by destination, in whatever order the map yields them. */
  method GetPreferredInterPodAntiAffinity(plan: Combination, cluster: Cluster) returns (created: int)
    ensures created == CreatedViolations(plan, cluster)
  {
    hide PodViolations, AllViolations, GroupViolations, WithoutSystemPods, PodsOn, MatchesAffinityTerm,
         EffectiveRequests;
    var incoming: map<string, seq<Pod>> := map[];
    for i := 0 to |plan|
      invariant incoming == PlacedAfter(plan, i)
    {
      var name := plan[i].node.name;
      incoming := incoming[name := Lookup(incoming, name) + [plan[i].pod]];
    }
    DestinationsAreKeys(plan, |plan|);
    created := 0;
    var rest := incoming.Keys;
    ghost var done: set<string> := {};
    NoDestinations(plan, cluster, |plan|);
    while rest != {}
      invariant rest + done == incoming.Keys && rest !! done
      invariant created == ViolationsOn(done, plan, cluster, |plan|)
      decreases rest
    {
      var name :| name in rest;
      LedgerBalances(map[], plan, name, |plan|);
      var moving := incoming[name];
      var group := GroupLoop(moving, WithoutSystemPods(PodsOn(cluster.pods, name)) + moving);
      OneMoreGroup(done, name, plan, cluster, |plan|);
      created := created + group;
      rest, done := rest - {name}, done + {name};
    }
    assert done == DestinationNames(plan);
  }

  lemma {:induction false} DestinationsAreKeys(plan: Combination, n: nat)
    requires n <= |plan|
    ensures PlacedAfter(plan, n).Keys == set i | 0 <= i < n :: plan[i].node.name
  {
    if n > 0 { DestinationsAreKeys(plan, n - 1); }
  }

  lemma {:induction false} NoDestinations(plan: Combination, cluster: Cluster, n: nat)
    requires n <= |plan|
    ensures ViolationsOn({}, plan, cluster, n) == 0
  {
    if n > 0 { NoDestinations(plan, cluster, n - 1); }
  }

  ghost predicate PositiveAntiWeights(plan: Combination) {
    forall i, k :: 0 <= i < |plan| && 0 <= k < |plan[i].pod.preferredPodAntiAffinity| ==>
      plan[i].pod.preferredPodAntiAffinity[k].weight > 0
  }

  /** No neighbour but the pod itself matches any of its preferred anti-affinity terms. */
  ghost predicate IsUndisturbed(pod: Pod, others: seq<Pod>, terms: nat)
    requires terms <= |pod.preferredPodAntiAffinity|
  {
    forall k, j :: 0 <= k < terms && 0 <= j < |others| && others[j].Key() != pod.Key() ==>
      !MatchesAffinityTerm(pod, others[j], pod.preferredPodAntiAffinity[k].term)
  }

  lemma {:induction false} TermViolationsMean(pod: Pod, t: WeightedAffinityTerm, others: seq<Pod>, n: nat)
    requires n <= |others| && t.weight > 0
    ensures TermViolations(pod, t, others, n) >= 0
    ensures TermViolations(pod, t, others, n) == 0 <==>
            forall j :: 0 <= j < n && others[j].Key() != pod.Key() ==> !MatchesAffinityTerm(pod, others[j], t.term)
  {
    hide MatchesAffinityTerm;
    if n > 0 { TermViolationsMean(pod, t, others, n - 1); }
  }

  lemma {:induction false} PodViolationsMean(pod: Pod, others: seq<Pod>, n: nat)
    requires n <= |pod.preferredPodAntiAffinity|
    requires forall k :: 0 <= k < |pod.preferredPodAntiAffinity| ==> pod.preferredPodAntiAffinity[k].weight > 0
    ensures PodViolations(pod, others, n) >= 0
    ensures PodViolations(pod, others, n) == 0 <==> IsUndisturbed(pod, others, n)
  {
    hide MatchesAffinityTerm, TermViolations;
    if n > 0 {
      PodViolationsMean(pod, others, n - 1);
      TermViolationsMean(pod, pod.preferredPodAntiAffinity[n - 1], others, |others|);
    }
  }

  lemma {:induction false} ViolationsMean(names: set<string>, plan: Combination, cluster: Cluster, n: nat)
    requires n <= |plan| && PositiveAntiWeights(plan)
    ensures ViolationsOn(names, plan, cluster, n) >= 0
    ensures ViolationsOn(names, plan, cluster, n) == 0 <==>
            forall i :: 0 <= i < n && plan[i].node.name in names ==>
              IsUndisturbed(plan[i].pod, Neighbours(plan, cluster, plan[i].node.name),
                |plan[i].pod.preferredPodAntiAffinity|)
  {
    hide PodViolations, IsUndisturbed, Neighbours;
    if n > 0 {
      ViolationsMean(names, plan, cluster, n - 1);
      var a := plan[n - 1];
      PodViolationsMean(a.pod, Neighbours(plan, cluster, a.node.name), |a.pod.preferredPodAntiAffinity|);
    }
  }

  /** The plan creates no violation exactly when no moved pod meets, on its destination, a pod that one
      of its preferred anti-affinity terms matches. */
  lemma {:induction false} NoViolationIff(plan: Combination, cluster: Cluster)
    requires PositiveAntiWeights(plan)
    ensures CreatedViolations(plan, cluster) >= 0
    ensures CreatedViolations(plan, cluster) == 0 <==>
            forall i :: 0 <= i < |plan| ==>
              IsUndisturbed(plan[i].pod, Neighbours(plan, cluster, plan[i].node.name),
                |plan[i].pod.preferredPodAntiAffinity|)
  {
    hide IsUndisturbed, Neighbours;
    ViolationsMean(DestinationNames(plan), plan, cluster, |plan|);
    hide ViolationsOn, PositiveAntiWeights;
    assert forall i :: 0 <= i < |plan| ==> plan[i].node.name in DestinationNames(plan);
  }
}
