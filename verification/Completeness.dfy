/** Feasible plans, and the shapes for which the planner finds a plan whenever there is one. */
module Completeness {
  import opened Options
  import opened Kube
  import opened PodRequests
  import opened Ordering
  import opened Placement
  import opened Filters
  import opened Slack
  import opened Migration

  // ---------------------------------------------------------------- feasible plans

  function Ordered(pods: seq<Pod>): seq<Pod> {
    OrderForPlacement(pods, true)
  }

  /** An assignment of every pod to a candidate that satisfies every hard constraint at once. */
  ghost predicate IsFeasible(plan: Combination, cluster: Cluster, candidates: seq<Node>, pods: seq<Pod>) {
    && |plan| == |Ordered(pods)|
    && (forall i :: 0 <= i < |plan| ==>
          && plan[i].node in candidates && plan[i] == Assignment(Ordered(pods)[i], plan[i].node, None)
          && IsKept(plan, i, cluster))
    && SpreadHolds(plan, cluster)
  }

  /** The i-th move respects taints and node affinity, and its node can hold all the plan puts there. */
  ghost predicate IsKept(plan: Combination, i: nat, cluster: Cluster)
    requires i < |plan|
  {
    var node, pod := plan[i].node, plan[i].pod;
    && ToleratesTaints(pod, node) && MatchesNodeAffinity(pod, node)
    && Free(cluster, node).Fits(RequestedOn(plan, node.name, |plan|))
    && AffinityOnNode(Residents(cluster, node), PlacedOn(plan, node.name, |plan|))
  }

  ghost predicate HasFeasible(cluster: Cluster, candidates: seq<Node>, pods: seq<Pod>) {
    exists plan :: IsFeasible(plan, cluster, candidates, pods)
  }

  lemma OrderedLength(pods: seq<Pod>)
    ensures |Ordered(pods)| == |pods|
  {
    OrderIsPermutation(pods, true);
    hide OrderForPlacement;
    assert |Ordered(pods)| == |multiset(Ordered(pods))| == |multiset(pods)|;
  }

  lemma PlacementFitsTotal(plan: Combination, cluster: Cluster, candidates: seq<Node>, pods: seq<Pod>, c: nat)
    requires IsPlacement(plan, cluster, candidates, pods, true) && DistinctNames(candidates) && c < |candidates|
    requires exists i :: 0 <= i < |plan| && plan[i].node.name == candidates[c].name
    ensures Free(cluster, candidates[c]).Fits(RequestedOn(plan, candidates[c].name, |plan|))
  {
    var free, name := FreeMap(cluster, candidates, |candidates|), candidates[c].name;
    MapsOf(cluster, candidates, c, |candidates|);
    hide FreeMap, ResidentMap, OrderForPlacement, IsGreedy, FreeAfter, PlacedAfter, Free, RequestedOn, PlacedOn;
    LedgerBalances(free, plan, name, |plan|);
    NoOvercommit(Ordered(pods), candidates, free, ResidentMap(cluster, candidates, |candidates|), plan, name, |plan|);
  }

  lemma PlacementFits(plan: Combination, cluster: Cluster, candidates: seq<Node>, pods: seq<Pod>, i: nat)
    requires IsPlacement(plan, cluster, candidates, pods, true) && DistinctNames(candidates) && i < |plan|
    ensures plan[i].node in candidates && IsKept(plan, i, cluster)
    ensures i < |Ordered(pods)| && plan[i] == Assignment(Ordered(pods)[i], plan[i].node, None)
  {
    hide FreeMap, ResidentMap, OrderForPlacement, IsGreedy, ToleratesTaints, MatchesNodeAffinity, AffinityOnNode,
         EffectiveRequests, Free, RequestedOn, PlacedOn, WithoutSystemPods, PodsOn;
    var c := GreedyStepAdmits(plan, cluster, candidates, pods, i);
    PlacementKeepsAffinity(plan, cluster, candidates, pods, plan[i].node.name, |plan|);
    PlacementFitsTotal(plan, cluster, candidates, pods, c);
  }

  lemma PlacementIsFeasible(plan: Combination, cluster: Cluster, candidates: seq<Node>, pods: seq<Pod>)
    requires DistinctNames(candidates)
    requires IsPlacement(plan, cluster, candidates, pods, true) && SpreadHolds(plan, cluster)
    ensures IsFeasible(plan, cluster, candidates, pods)
  {
    hide IsPlacement, SpreadHolds, IsKept, Ordered;
    PlacementLength(plan, cluster, candidates, pods);
    OrderedLength(pods);
    forall i | 0 <= i < |plan|
      ensures plan[i].node in candidates && plan[i] == Assignment(Ordered(pods)[i], plan[i].node, None)
      ensures IsKept(plan, i, cluster)
    {
      PlacementFits(plan, cluster, candidates, pods, i);
    }
  }

  /** What the planner finds is feasible. */
  lemma {:induction false} FoundIsFeasible(cluster: Cluster, candidates: seq<Node>, pods: seq<Pod>)
    requires DistinctNames(candidates) && FindsPlan(cluster, candidates, pods)
    ensures HasFeasible(cluster, candidates, pods)
  {
    hide IsPlacement, SpreadHolds, IsFeasible;
    var plan: Combination :| IsPlacement(plan, cluster, candidates, pods, true) && SpreadHolds(plan, cluster);
    PlacementIsFeasible(plan, cluster, candidates, pods);
  }

  /** Without candidates the planner returns no plan, although no pods at all could be moved. */
  lemma {:induction false} NoCandidates(cluster: Cluster, pods: seq<Pod>)
    ensures !ReturnsPlan(cluster, [], pods)
    ensures HasFeasible(cluster, [], pods) <==> pods == []
  {
    OrderedLength(pods);
    hide FindsPlan, Ordered, IsKept;
    if pods == [] {
      assert IsFeasible([], cluster, [], pods);
    } else {
      forall plan: Combination ensures !IsFeasible(plan, cluster, [], pods) {
        if plan != [] { assert plan[0].node !in []; }
      }
    }
  }

  // ---------------------------------------------------------------- when the placer cannot get stuck

  /** The node takes the pod as long as nothing has been moved there. */
  ghost predicate Suits(pod: Pod, node: Node, cluster: Cluster) {
    && ToleratesTaints(pod, node) && MatchesNodeAffinity(pod, node)
    && AffinityOnNode(Residents(cluster, node), [pod])
    && Free(cluster, node).Fits(EffectiveRequests(pod))
  }

  /** What the first n pods request that the node suits. */
  ghost function SuitedTotal(ordered: seq<Pod>, node: Node, cluster: Cluster, n: nat): Requests
    requires n <= |ordered|
  {
    if n == 0 then Requests(0, 0)
    else
      var before, r := SuitedTotal(ordered, node, cluster, n - 1), EffectiveRequests(ordered[n - 1]);
      if Suits(ordered[n - 1], node, cluster) then Requests(before.cpu + r.cpu, before.memory + r.memory) else before
  }

  /** The node could take all the pods it suits together. */
  ghost predicate IsRoomy(node: Node, cluster: Cluster, ordered: seq<Pod>) {
    && ((exists i :: 0 <= i < |ordered| && Suits(ordered[i], node, cluster)) ==>
          Free(cluster, node).Fits(SuitedTotal(ordered, node, cluster, |ordered|)))
    && forall i, j ::
         0 <= i < j < |ordered| && Suits(ordered[i], node, cluster) && Suits(ordered[j], node, cluster) ==>
           Compatible(ordered[j], ordered[i])
  }

  lemma AdmittedIsSuited(node: Node, pod: Pod, cluster: Cluster, plan: Combination, n: nat)
    requires n <= |plan| && Admits(node, pod, cluster, plan, n)
    ensures Suits(pod, node, cluster)
  {
    hide ToleratesTaints, MatchesNodeAffinity, Compatible, Free, EffectiveRequests, RequestedOn, PlacedOn, Residents;
    var residents, placed := Residents(cluster, node), PlacedOn(plan, node.name, n);
    forall j | 0 <= j < |residents| ensures Compatible(pod, residents[j]) {
      assert (residents + placed)[j] == residents[j];
      assert Compatible([pod][0], (residents + placed)[j]);
    }
  }

  lemma {:induction false} SuitedTotalGrows(ordered: seq<Pod>, node: Node, cluster: Cluster, i: nat, n: nat)
    requires i <= n <= |ordered|
    ensures SuitedTotal(ordered, node, cluster, i).cpu <= SuitedTotal(ordered, node, cluster, n).cpu
    ensures SuitedTotal(ordered, node, cluster, i).memory <= SuitedTotal(ordered, node, cluster, n).memory
  {
    hide Suits, EffectiveRequests;
    if i < n { SuitedTotalGrows(ordered, node, cluster, i, n - 1); }
  }

  /** A greedy plan puts only suited pods on a node. */
  lemma {:induction false} RequestedIsSuited(plan: Combination, cluster: Cluster, candidates: seq<Node>, pods: seq<Pod>,
                                            c: nat, n: nat)
    requires IsGreedyPlan(plan, cluster, candidates, pods) && DistinctNames(candidates) && c < |candidates|
    requires n <= |plan| <= |Ordered(pods)|
    ensures RequestedOn(plan, candidates[c].name, n).cpu <= SuitedTotal(Ordered(pods), candidates[c], cluster, n).cpu
    ensures RequestedOn(plan, candidates[c].name, n).memory
         <= SuitedTotal(Ordered(pods), candidates[c], cluster, n).memory
  {
    hide IsGreedyPlan, Suits, EffectiveRequests, Admits, OrderForPlacement;
    if n > 0 {
      RequestedIsSuited(plan, cluster, candidates, pods, c, n - 1);
      var d := GreedyStepAdmits(plan, cluster, candidates, pods, n - 1);
      AdmittedIsSuited(candidates[d], plan[n - 1].pod, cluster, plan, n - 1);
    }
  }

  lemma {:induction false} PlacedFrom(plan: Combination, name: string, n: nat, j: nat) returns (k: nat)
    requires n <= |plan| && j < |PlacedOn(plan, name, n)|
    ensures k < n && plan[k].node.name == name && PlacedOn(plan, name, n)[j] == plan[k].pod
  {
    if j < |PlacedOn(plan, name, n - 1)| {
      k := PlacedFrom(plan, name, n - 1, j);
    } else {
      k := n - 1;
    }
  }

  lemma SuitedWithResident(pod: Pod, node: Node, cluster: Cluster, j: nat)
    requires Suits(pod, node, cluster) && j < |Residents(cluster, node)|
    ensures Compatible(pod, Residents(cluster, node)[j])
  {
    hide ToleratesTaints, MatchesNodeAffinity, Free, EffectiveRequests, Compatible, Residents;
    assert Compatible([pod][0], Residents(cluster, node)[j]);
  }

  lemma RoomyPair(node: Node, cluster: Cluster, ordered: seq<Pod>, i: nat, j: nat)
    requires IsRoomy(node, cluster, ordered) && i < j < |ordered|
    requires Suits(ordered[i], node, cluster) && Suits(ordered[j], node, cluster)
    ensures Compatible(ordered[j], ordered[i])
  {
    hide Suits, Compatible, Free, SuitedTotal;
  }

  /** The next pod gets on with every pod the plan put on a roomy node that suits it. */
  lemma RoomyWithPlaced(plan: Combination, cluster: Cluster, candidates: seq<Node>, pods: seq<Pod>, c: nat, j: nat)
    requires IsGreedyPlan(plan, cluster, candidates, pods) && DistinctNames(candidates) && c < |candidates|
    requires |plan| < |Ordered(pods)| && Suits(Ordered(pods)[|plan|], candidates[c], cluster)
    requires IsRoomy(candidates[c], cluster, Ordered(pods))
    requires j < |PlacedOn(plan, candidates[c].name, |plan|)|
    ensures Compatible(Ordered(pods)[|plan|], PlacedOn(plan, candidates[c].name, |plan|)[j])
  {
    hide IsGreedyPlan, IsRoomy, Suits, Compatible, Admits, OrderForPlacement, PlacedOn;
    var k := PlacedFrom(plan, candidates[c].name, |plan|, j);
    var d := GreedyStepAdmits(plan, cluster, candidates, pods, k);
    AdmittedIsSuited(candidates[d], plan[k].pod, cluster, plan, k);
    assert candidates[d] == candidates[c];
    RoomyPair(candidates[c], cluster, Ordered(pods), k, |plan|);
  }

  /** One newcomer gets on with two groups. */
  lemma AffinityOfOne(a: seq<Pod>, b: seq<Pod>, pod: Pod)
    requires forall j :: 0 <= j < |a| ==> Compatible(pod, a[j])
    requires forall j :: 0 <= j < |b| ==> Compatible(pod, b[j])
    ensures AffinityOnNode(a + b, [pod])
  {
    hide Compatible;
  }

  lemma RoomyAffinity(plan: Combination, cluster: Cluster, candidates: seq<Node>, pods: seq<Pod>, c: nat)
    requires IsGreedyPlan(plan, cluster, candidates, pods) && DistinctNames(candidates) && c < |candidates|
    requires |plan| < |Ordered(pods)| && Suits(Ordered(pods)[|plan|], candidates[c], cluster)
    requires IsRoomy(candidates[c], cluster, Ordered(pods))
    ensures AffinityOnNode(Residents(cluster, candidates[c]) + PlacedOn(plan, candidates[c].name, |plan|),
                           [Ordered(pods)[|plan|]])
  {
    var node, pod := candidates[c], Ordered(pods)[|plan|];
    var residents, placed := Residents(cluster, node), PlacedOn(plan, node.name, |plan|);
    hide *;
    forall j | 0 <= j < |residents| ensures Compatible(pod, residents[j]) {
      SuitedWithResident(pod, node, cluster, j);
    }
    forall j | 0 <= j < |placed| ensures Compatible(pod, placed[j]) {
      RoomyWithPlaced(plan, cluster, candidates, pods, c, j);
    }
    AffinityOfOne(residents, placed, pod);
  }

  /** A suited pod is admitted by a roomy node, whatever was placed before. */
  lemma RoomyAdmits(plan: Combination, cluster: Cluster, candidates: seq<Node>, pods: seq<Pod>, c: nat)
    requires IsGreedyPlan(plan, cluster, candidates, pods) && DistinctNames(candidates) && c < |candidates|
    requires |plan| < |Ordered(pods)| && Suits(Ordered(pods)[|plan|], candidates[c], cluster)
    requires IsRoomy(candidates[c], cluster, Ordered(pods))
    ensures Admits(candidates[c], Ordered(pods)[|plan|], cluster, plan, |plan|)
  {
    var ordered, node, n := Ordered(pods), candidates[c], |plan|;
    RequestedIsSuited(plan, cluster, candidates, pods, c, n);
    SuitedTotalGrows(ordered, node, cluster, n + 1, |ordered|);
    RoomyAffinity(plan, cluster, candidates, pods, c);
    assert SuitedTotal(ordered, node, cluster, n + 1).cpu
        == SuitedTotal(ordered, node, cluster, n).cpu + EffectiveRequests(ordered[n]).cpu;
    assert SuitedTotal(ordered, node, cluster, n + 1).memory
        == SuitedTotal(ordered, node, cluster, n).memory + EffectiveRequests(ordered[n]).memory;
    hide IsGreedyPlan, ToleratesTaints, MatchesNodeAffinity, AffinityOnNode, Free, EffectiveRequests, Compatible,
         SuitedTotal, RequestedOn, OrderForPlacement, Residents, PlacedOn;
  }

  /** Some candidate suits the pod and could take all the pods it suits. */
  ghost predicate HasRoom(pod: Pod, cluster: Cluster, candidates: seq<Node>, pods: seq<Pod>) {
    exists c ::
      0 <= c < |candidates| && Suits(pod, candidates[c], cluster) && IsRoomy(candidates[c], cluster, Ordered(pods))
  }

  lemma RoomAt(pod: Pod, cluster: Cluster, candidates: seq<Node>, pods: seq<Pod>, c: nat)
    requires c < |candidates| && Suits(pod, candidates[c], cluster) && IsRoomy(candidates[c], cluster, Ordered(pods))
    ensures HasRoom(pod, cluster, candidates, pods)
  {
  }

  ghost predicate EachHasRoom(cluster: Cluster, candidates: seq<Node>, pods: seq<Pod>) {
    forall i :: 0 <= i < |Ordered(pods)| ==> HasRoom(Ordered(pods)[i], cluster, candidates, pods)
  }

  /** Then the greedy placement reaches every length. */
  lemma {:induction false} GreedyReaches(cluster: Cluster, candidates: seq<Node>, pods: seq<Pod>, n: nat)
    returns (plan: Combination)
    requires DistinctNames(candidates) && EachHasRoom(cluster, candidates, pods) && n <= |Ordered(pods)|
    ensures IsGreedyPlan(plan, cluster, candidates, pods) && |plan| == n
  {
    if n == 0 {
      plan := [];
    } else {
      var before := GreedyReaches(cluster, candidates, pods, n - 1);
      var pod := Ordered(pods)[n - 1];
      assert HasRoom(pod, cluster, candidates, pods);
      hide Suits, IsRoomy, FreeMap, ResidentMap, OrderForPlacement, Admits;
      var c :| 0 <= c < |candidates| && Suits(pod, candidates[c], cluster)
               && IsRoomy(candidates[c], cluster, Ordered(pods));
      RoomyAdmits(before, cluster, candidates, pods, c);
      plan := ExtendPlan(before, cluster, candidates, pods, c);
    }
  }

  /** One more step of the placer. */
  lemma ChoiceExtends(ordered: seq<Pod>, candidates: seq<Node>, free: map<string, Resources>,
                      resident: map<string, seq<Pod>>, before: Combination, a: Assignment)
    requires IsGreedy(ordered, candidates, free, resident, before) && |before| < |ordered|
    requires var choice := Choice(ordered[|before|], candidates, FreeAfter(free, before, |before|), resident,
                                  PlacedAfter(before, |before|));
             choice.Some? && a == Assignment(ordered[|before|], candidates[choice.value], None)
    ensures IsGreedy(ordered, candidates, free, resident, before + [a])
  {
    hide FreeAfter, PlacedAfter, Choice;
    StateOfPrefix(free, before, before + [a], |before|);
    assert IsGreedyStep(ordered, candidates, free, resident, before + [a], |before|);
    hide IsGreedyStep;
    ExtendGreedy(ordered, candidates, free, resident, before, a);
  }

  lemma ExtendPlan(before: Combination, cluster: Cluster, candidates: seq<Node>, pods: seq<Pod>, c: nat)
    returns (plan: Combination)
    requires IsGreedyPlan(before, cluster, candidates, pods) && DistinctNames(candidates) && c < |candidates|
    requires |before| < |Ordered(pods)| && Admits(candidates[c], Ordered(pods)[|before|], cluster, before, |before|)
    ensures IsGreedyPlan(plan, cluster, candidates, pods) && |plan| == |before| + 1 && before <= plan
  {
    var n, ordered := |before|, Ordered(pods);
    var free, resident := FreeMap(cluster, candidates, |candidates|), ResidentMap(cluster, candidates, |candidates|);
    hide FreeMap, ResidentMap, OrderForPlacement, Admits, Admissible, EffectiveRequests, FreeAfter, PlacedAfter, Choice,
         IsGreedy, DistinctNames;
    AdmissibleIsAdmits(before, cluster, candidates, ordered[n], c, n);
    ChoiceIsAdmissible(ordered[n], candidates, FreeAfter(free, before, n), resident, PlacedAfter(before, n));
    var choice := Choice(ordered[n], candidates, FreeAfter(free, before, n), resident, PlacedAfter(before, n));
    var a := Assignment(ordered[n], candidates[choice.value], None);
    ChoiceExtends(ordered, candidates, free, resident, before, a);
    plan := before + [a];
  }

  lemma RoomyIsPlaced(cluster: Cluster, candidates: seq<Node>, pods: seq<Pod>) returns (plan: Combination)
    requires DistinctNames(candidates) && EachHasRoom(cluster, candidates, pods)
    ensures IsPlacement(plan, cluster, candidates, pods, true)
  {
    OrderedLength(pods);
    hide EachHasRoom, IsGreedy, OrderForPlacement, FreeMap, ResidentMap;
    plan := GreedyReaches(cluster, candidates, pods, |Ordered(pods)|);
  }

  // ---------------------------------------------------------------- room for everybody

  /** A feasible plan sends every pod to a candidate that suits it. */
  lemma FeasibleSuits(plan: Combination, cluster: Cluster, candidates: seq<Node>, pods: seq<Pod>, i: nat)
    requires IsFeasible(plan, cluster, candidates, pods) && i < |plan|
    ensures plan[i].node in candidates && Suits(plan[i].pod, plan[i].node, cluster)
  {
    var node, pod := plan[i].node, plan[i].pod;
    hide ToleratesTaints, MatchesNodeAffinity, Compatible, Free, EffectiveRequests, Residents, Ordered, SpreadHolds;
    assert IsKept(plan, i, cluster);
    RequestedAtLeast(plan, i, |plan|);
    var j := PlacedIn(plan, i, |plan|);
    var residents, placed := Residents(cluster, node), PlacedOn(plan, node.name, |plan|);
    forall k | 0 <= k < |residents| ensures Compatible(pod, residents[k]) {
      assert Compatible(placed[j], residents[k]);
    }
  }

  lemma {:induction false} RequestedAtLeast(plan: Combination, i: nat, n: nat)
    requires i < n <= |plan|
    ensures EffectiveRequests(plan[i].pod).cpu <= RequestedOn(plan, plan[i].node.name, n).cpu
    ensures EffectiveRequests(plan[i].pod).memory <= RequestedOn(plan, plan[i].node.name, n).memory
  {
    hide EffectiveRequests;
    if i < n - 1 { RequestedAtLeast(plan, i, n - 1); }
  }

  lemma {:induction false} PlacedIn(plan: Combination, i: nat, n: nat) returns (j: nat)
    requires i < n <= |plan|
    ensures j < |PlacedOn(plan, plan[i].node.name, n)| && PlacedOn(plan, plan[i].node.name, n)[j] == plan[i].pod
  {
    if i < n - 1 {
      j := PlacedIn(plan, i, n - 1);
    } else {
      j := |PlacedOn(plan, plan[i].node.name, n - 1)|;
    }
  }

  lemma PlacementAssigns(plan: Combination, cluster: Cluster, candidates: seq<Node>, pods: seq<Pod>)
    requires IsPlacement(plan, cluster, candidates, pods, true) && DistinctNames(candidates)
    ensures Assigns(plan, candidates, Ordered(pods))
  {
    hide IsPlacement, OrderForPlacement;
    PlacementLength(plan, cluster, candidates, pods);
    OrderedLength(pods);
    forall i | 0 <= i < |plan| ensures plan[i].pod == Ordered(pods)[i] && plan[i].node in candidates {
      PlacementFits(plan, cluster, candidates, pods, i);
    }
  }

  /** With room for every pod and slack in every hard constraint the planner finds a plan. */
  lemma RoomAndSlackSuffice(cluster: Cluster, candidates: seq<Node>, pods: seq<Pod>)
    requires DistinctNames(candidates) && EachHasRoom(cluster, candidates, pods) && HasSlack(cluster, Ordered(pods))
    ensures FindsPlan(cluster, candidates, pods)
  {
    hide IsPlacement, EachHasRoom, HasSlack, Ordered, SpreadHolds, Assigns;
    var plan := RoomyIsPlaced(cluster, candidates, pods);
    PlacementAssigns(plan, cluster, candidates, pods);
    SlackKeepsSpread(plan, cluster, candidates, Ordered(pods));
  }

  /** Where every candidate could take all the pods it suits, and no placement can break a hard spread
      constraint, the planner returns a plan exactly when there are candidates and a feasible plan. */
  lemma {:induction false} RoomyIsComplete(cluster: Cluster, candidates: seq<Node>, pods: seq<Pod>)
    requires DistinctNames(candidates) && HasSlack(cluster, Ordered(pods))
    requires forall c :: 0 <= c < |candidates| ==> IsRoomy(candidates[c], cluster, Ordered(pods))
    ensures ReturnsPlan(cluster, candidates, pods) <==> candidates != [] && HasFeasible(cluster, candidates, pods)
  {
    hide FindsPlan, Suits, IsRoomy, HasSlack;
    if FindsPlan(cluster, candidates, pods) { FoundIsFeasible(cluster, candidates, pods); }
    if HasFeasible(cluster, candidates, pods) {
      var p: Combination :| IsFeasible(p, cluster, candidates, pods);
      hide HasRoom, Ordered;
      forall i | 0 <= i < |Ordered(pods)| ensures HasRoom(Ordered(pods)[i], cluster, candidates, pods) {
        FeasibleSuits(p, cluster, candidates, pods, i);
        assert p[i].pod == Ordered(pods)[i];
        var c :| 0 <= c < |candidates| && candidates[c] == p[i].node;
        RoomAt(p[i].pod, cluster, candidates, pods, c);
      }
      RoomAndSlackSuffice(cluster, candidates, pods);
    }
  }

  // ---------------------------------------------------------------- one pod

  /** Sending the only pod to this candidate respects its hard spread constraints. */
  ghost predicate KeepsSpread(pod: Pod, node: Node, cluster: Cluster) {
    PodSpreadHolds([Assignment(pod, node, None)], pod, cluster)
  }

  /** Where the scheduler's scores send the only pod. */
  function FirstChoice(cluster: Cluster, candidates: seq<Node>, pod: Pod): (c: Option<nat>)
    ensures c.Some? ==> c.value < |candidates|
  {
    Choice(pod, candidates, FreeMap(cluster, candidates, |candidates|), ResidentMap(cluster, candidates, |candidates|),
           map[])
  }

  /** On an empty plan the planner's filters are Suits. */
  lemma SuitsIsAdmitted(pod: Pod, node: Node, cluster: Cluster)
    ensures Suits(pod, node, cluster) <==> Admits(node, pod, cluster, [], 0)
  {
    assert Residents(cluster, node) + [] == Residents(cluster, node);
    assert PlacedOn([], node.name, 0) == [] && RequestedOn([], node.name, 0) == Requests(0, 0);
    hide ToleratesTaints, MatchesNodeAffinity, AffinityOnNode, Free, EffectiveRequests, Residents, PlacedOn,
         RequestedOn;
  }

  lemma FirstChoiceSuits(cluster: Cluster, candidates: seq<Node>, pod: Pod)
    requires DistinctNames(candidates)
    ensures var c := FirstChoice(cluster, candidates, pod);
            && (c.Some? ==> Suits(pod, candidates[c.value], cluster))
            && (c.None? ==> forall i :: 0 <= i < |candidates| ==> !Suits(pod, candidates[i], cluster))
  {
    var free, resident := FreeMap(cluster, candidates, |candidates|), ResidentMap(cluster, candidates, |candidates|);
    EmptyPlan(free);
    ChoiceIsAdmissible(pod, candidates, free, resident, map[]);
    hide FreeMap, ResidentMap, Choice, Admissible, Admits, Suits, EffectiveRequests, DistinctNames, FreeAfter,
         PlacedAfter;
    forall i | 0 <= i < |candidates|
      ensures Suits(pod, candidates[i], cluster)
         <==> Admissible(pod, EffectiveRequests(pod), candidates[i], free, resident, map[])
    {
      SuitsIsAdmitted(pod, candidates[i], cluster);
      AdmissibleIsAdmits([], cluster, candidates, pod, i, 0);
    }
  }

  /** The placement of one pod, when there is one, is its first choice. */
  lemma OnePlacement(cluster: Cluster, candidates: seq<Node>, pod: Pod, plan: Combination)
    ensures IsPlacement(plan, cluster, candidates, [pod], true) <==>
            var c := FirstChoice(cluster, candidates, pod);
            c.Some? && plan == [Assignment(pod, candidates[c.value], None)]
  {
    OneOrdered(pod);
    var free, resident := FreeMap(cluster, candidates, |candidates|), ResidentMap(cluster, candidates, |candidates|);
    hide FreeMap, ResidentMap, Choice, OrderForPlacement;
    assert Ordered([pod]) == OrderForPlacement([pod], true);
    if |plan| == 1 {
      assert FreeAfter(free, plan, 0) == free && PlacedAfter(plan, 0) == map[];
      assert IsGreedy([pod], candidates, free, resident, plan)
        <==> IsGreedyStep([pod], candidates, free, resident, plan, 0);
    }
  }

  lemma OneSpread(plan: Combination, pod: Pod, node: Node, cluster: Cluster)
    requires plan == [Assignment(pod, node, None)]
    ensures SpreadHolds(plan, cluster) <==> KeepsSpread(pod, node, cluster)
  {
    hide PodSpreadHolds;
    assert plan[0].pod == pod;
  }

  lemma OneIsFeasible(cluster: Cluster, candidates: seq<Node>, pod: Pod, node: Node)
    ensures IsFeasible([Assignment(pod, node, None)], cluster, candidates, [pod])
       <==> node in candidates && Suits(pod, node, cluster) && KeepsSpread(pod, node, cluster)
  {
    var plan := [Assignment(pod, node, None)];
    OneOrdered(pod);
    OneSpread(plan, pod, node, cluster);
    OneIsKept(plan, pod, node, cluster);
    hide Ordered, SpreadHolds, KeepsSpread, IsKept, Suits;
    assert plan[0].node == node;
  }

  lemma OneIsKept(plan: Combination, pod: Pod, node: Node, cluster: Cluster)
    requires plan == [Assignment(pod, node, None)]
    ensures IsKept(plan, 0, cluster) <==> Suits(pod, node, cluster)
  {
    assert PlacedOn(plan, node.name, 0) == [] && RequestedOn(plan, node.name, 0) == Requests(0, 0);
    assert PlacedOn(plan, node.name, 1) == [pod] && RequestedOn(plan, node.name, 1) == EffectiveRequests(pod);
    hide ToleratesTaints, MatchesNodeAffinity, AffinityOnNode, Free, EffectiveRequests, Residents, PlacedOn,
         RequestedOn;
  }

  /** Some candidate suits the pod and keeps its spread. */
  ghost predicate HasSpreadingNode(cluster: Cluster, candidates: seq<Node>, pod: Pod) {
    exists node :: node in candidates && Suits(pod, node, cluster) && KeepsSpread(pod, node, cluster)
  }

  /** The pod's first choice keeps its spread. */
  ghost predicate FirstChoiceSpreads(cluster: Cluster, candidates: seq<Node>, pod: Pod) {
    var c := FirstChoice(cluster, candidates, pod);
    c.Some? && KeepsSpread(pod, candidates[c.value], cluster)
  }

  lemma OneReturnsIff(cluster: Cluster, candidates: seq<Node>, pod: Pod)
    ensures ReturnsPlan(cluster, candidates, [pod]) <==> FirstChoiceSpreads(cluster, candidates, pod)
  {
    hide IsPlacement, SpreadHolds, KeepsSpread, FirstChoice;
    var c := FirstChoice(cluster, candidates, pod);
    if FindsPlan(cluster, candidates, [pod]) {
      var plan: Combination :| IsPlacement(plan, cluster, candidates, [pod], true) && SpreadHolds(plan, cluster);
      OnePlacement(cluster, candidates, pod, plan);
      OneSpread(plan, pod, candidates[c.value], cluster);
    }
    if FirstChoiceSpreads(cluster, candidates, pod) {
      var plan := [Assignment(pod, candidates[c.value], None)];
      OnePlacement(cluster, candidates, pod, plan);
      OneSpread(plan, pod, candidates[c.value], cluster);
    }
  }

  lemma OneHasFeasibleIff(cluster: Cluster, candidates: seq<Node>, pod: Pod)
    ensures HasFeasible(cluster, candidates, [pod]) <==> HasSpreadingNode(cluster, candidates, pod)
  {
    OneOrdered(pod);
    hide Ordered, Suits, KeepsSpread, SpreadHolds, IsKept;
    if HasFeasible(cluster, candidates, [pod]) {
      var p: Combination :| IsFeasible(p, cluster, candidates, [pod]);
      assert p == [Assignment(pod, p[0].node, None)];
      OneIsFeasible(cluster, candidates, pod, p[0].node);
    }
    if HasSpreadingNode(cluster, candidates, pod) {
      var node :| node in candidates && Suits(pod, node, cluster) && KeepsSpread(pod, node, cluster);
      OneIsFeasible(cluster, candidates, pod, node);
    }
  }

  /** One pod: the planner returns a plan exactly when the first best candidate for the pod keeps its
      spread, and misses one exactly when that candidate does not and another that suits the pod does. */
  lemma {:induction false} OnePodIsComplete(cluster: Cluster, candidates: seq<Node>, pod: Pod)
    requires DistinctNames(candidates)
    ensures ReturnsPlan(cluster, candidates, [pod]) <==> FirstChoiceSpreads(cluster, candidates, pod)
    ensures HasFeasible(cluster, candidates, [pod]) <==> HasSpreadingNode(cluster, candidates, pod)
    ensures (ReturnsPlan(cluster, candidates, [pod]) <==> HasFeasible(cluster, candidates, [pod]))
       <==> FirstChoiceSpreads(cluster, candidates, pod) || !HasSpreadingNode(cluster, candidates, pod)
  {
    OneReturnsIff(cluster, candidates, pod);
    OneHasFeasibleIff(cluster, candidates, pod);
    FirstChoiceSuits(cluster, candidates, pod);
    hide ReturnsPlan, HasFeasible, Suits, KeepsSpread, FirstChoice;
  }

  lemma OneOrdered(pod: Pod)
    ensures Ordered([pod]) == [pod]
  {
    OrderedLength([pod]);
    OrderIsPermutation([pod], true);
    hide OrderForPlacement;
    assert Ordered([pod])[0] in multiset([pod]);
  }

  // ---------------------------------------------------------------- one candidate

  /** One candidate: the planner finds a plan exactly when sending all pods there is feasible. */
  lemma {:induction false} OneCandidateIsComplete(cluster: Cluster, candidates: seq<Node>, pods: seq<Pod>)
    requires |candidates| == 1
    ensures ReturnsPlan(cluster, candidates, pods) <==> HasFeasible(cluster, candidates, pods)
  {
    hide IsPlacement, SpreadHolds, IsRoomy, Suits;
    if FindsPlan(cluster, candidates, pods) { FoundIsFeasible(cluster, candidates, pods); }
    if HasFeasible(cluster, candidates, pods) {
      var p: Combination :| IsFeasible(p, cluster, candidates, pods);
      OneNodeIsRoomy(p, cluster, candidates[0], candidates, pods);
      hide HasRoom, Ordered;
      forall i | 0 <= i < |Ordered(pods)| ensures HasRoom(Ordered(pods)[i], cluster, candidates, pods) {
        FeasibleSuits(p, cluster, candidates, pods, i);
        assert p[i].pod == Ordered(pods)[i] && p[i].node == candidates[0];
        RoomAt(p[i].pod, cluster, candidates, pods, 0);
      }
      var plan := RoomyIsPlaced(cluster, candidates, pods);
      OnlyPlan(plan, p, cluster, candidates, pods);
    }
  }

  lemma OnlyPlan(plan: Combination, p: Combination, cluster: Cluster, candidates: seq<Node>, pods: seq<Pod>)
    requires |candidates| == 1
    requires IsPlacement(plan, cluster, candidates, pods, true) && IsFeasible(p, cluster, candidates, pods)
    ensures plan == p
  {
    hide IsPlacement, SpreadHolds, IsKept, OrderForPlacement;
    OrderedLength(pods);
    PlacementLength(plan, cluster, candidates, pods);
    forall i | 0 <= i < |plan| ensures plan[i] == p[i] {
      PlacementFits(plan, cluster, candidates, pods, i);
    }
  }

  lemma {:induction false} AllOnOne(p: Combination, node: Node, cluster: Cluster, ordered: seq<Pod>, n: nat)
    requires n <= |p| == |ordered| && forall i :: 0 <= i < |p| ==> p[i] == Assignment(ordered[i], node, None)
    ensures PlacedOn(p, node.name, n) == ordered[..n]
    ensures SuitedTotal(ordered, node, cluster, n).cpu <= RequestedOn(p, node.name, n).cpu
    ensures SuitedTotal(ordered, node, cluster, n).memory <= RequestedOn(p, node.name, n).memory
  {
    hide Suits, EffectiveRequests;
    if n > 0 {
      AllOnOne(p, node, cluster, ordered, n - 1);
      assert ordered[..n] == ordered[..n - 1] + [ordered[n - 1]];
    }
  }

  lemma AllCompatible(residents: seq<Pod>, pods: seq<Pod>)
    requires AffinityOnNode(residents, pods)
    ensures forall i, j :: 0 <= i < j < |pods| ==> Compatible(pods[j], pods[i])
  {
    hide Compatible;
    forall i, j | 0 <= i < j < |pods| ensures Compatible(pods[j], pods[i]) {
      CompatibleIsSymmetric(pods[i], pods[j]);
    }
  }

  /** All the plan puts on the only node. */
  lemma OnlyNodeKeeps(p: Combination, cluster: Cluster, node: Node, candidates: seq<Node>, pods: seq<Pod>)
    requires candidates == [node] && IsFeasible(p, cluster, candidates, pods) && Ordered(pods) != []
    ensures |p| == |Ordered(pods)| && forall i :: 0 <= i < |p| ==> p[i] == Assignment(Ordered(pods)[i], node, None)
    ensures Free(cluster, node).Fits(RequestedOn(p, node.name, |p|))
    ensures AffinityOnNode(Residents(cluster, node), PlacedOn(p, node.name, |p|))
  {
    hide Ordered, SpreadHolds, ToleratesTaints, MatchesNodeAffinity, AffinityOnNode, Free, RequestedOn, PlacedOn,
         Residents;
    assert IsKept(p, 0, cluster) && p[0].node == node;
  }

  lemma RoomyByTotal(node: Node, cluster: Cluster, ordered: seq<Pod>, total: Requests)
    requires Free(cluster, node).Fits(total)
    requires SuitedTotal(ordered, node, cluster, |ordered|).cpu <= total.cpu
    requires SuitedTotal(ordered, node, cluster, |ordered|).memory <= total.memory
    requires forall i, j :: 0 <= i < j < |ordered| ==> Compatible(ordered[j], ordered[i])
    ensures IsRoomy(node, cluster, ordered)
  {
    hide Suits, Compatible, Free, SuitedTotal;
  }

  lemma OneNodeIsRoomy(p: Combination, cluster: Cluster, node: Node, candidates: seq<Node>, pods: seq<Pod>)
    requires candidates == [node] && IsFeasible(p, cluster, candidates, pods)
    ensures IsRoomy(node, cluster, Ordered(pods))
  {
    var ordered := Ordered(pods);
    if ordered == [] {
      hide IsFeasible, Suits;
    } else {
      OnlyNodeKeeps(p, cluster, node, candidates, pods);
      hide IsFeasible, Ordered, IsRoomy, Suits, Free, RequestedOn, SuitedTotal, PlacedOn, Residents, AffinityOnNode,
           Compatible;
      AllOnOne(p, node, cluster, ordered, |p|);
      assert ordered[..|p|] == ordered;
      AllCompatible(Residents(cluster, node), ordered);
      RoomyByTotal(node, cluster, ordered, RequestedOn(p, node.name, |p|));
    }
  }

  // ---------------------------------------------------------------- one candidate for all

  /** A candidate that can take every pod at once, whatever the other candidates are. */
  ghost predicate IsSink(node: Node, cluster: Cluster, pods: seq<Pod>) {
    && IsRoomy(node, cluster, Ordered(pods))
    && forall i :: 0 <= i < |Ordered(pods)| ==> Suits(Ordered(pods)[i], node, cluster)
  }

  /** One such candidate, and slack, are enough for the planner to return a plan. */
  lemma {:induction false} SinkIsEnough(cluster: Cluster, candidates: seq<Node>, pods: seq<Pod>, c: nat)
    requires DistinctNames(candidates) && HasSlack(cluster, Ordered(pods))
    requires c < |candidates| && IsSink(candidates[c], cluster, pods)
    ensures ReturnsPlan(cluster, candidates, pods)
  {
    hide FindsPlan, Suits, IsRoomy, HasSlack;
    RoomAndSlackSuffice(cluster, candidates, pods);
  }
}
