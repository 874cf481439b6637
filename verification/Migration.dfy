/** The migration planner, and that its incremental greedy filter refines the batch filters. */
module Migration {
  import opened Options
  import opened Kube
  import opened PodRequests
  import opened Scoring
  import opened Combinations
  import opened Ordering
  import opened Placement
  import opened Skew
  import opened TopologyScore
  import opened Filters

  // ---------------------------------------------------------------- the planner

  function FreeMap(cluster: Cluster, candidates: seq<Node>, n: nat): map<string, Resources>
    requires n <= |candidates|
  {
    if n == 0 then map[]
    else FreeMap(cluster, candidates, n - 1)[candidates[n - 1].name := Free(cluster, candidates[n - 1])]
  }

  function ResidentMap(cluster: Cluster, candidates: seq<Node>, n: nat): map<string, seq<Pod>>
    requires n <= |candidates|
  {
    if n == 0 then map[]
    else
      var name := candidates[n - 1].name;
      ResidentMap(cluster, candidates, n - 1)[name := WithoutSystemPods(PodsOn(cluster.pods, name))]
  }

  /** Where the opposite order puts each pod, by pod key. */
  function AltMap(alt: Combination, n: nat): map<string, Node>
    requires n <= |alt|
  {
    if n == 0 then map[] else AltMap(alt, n - 1)[alt[n - 1].pod.Key() := alt[n - 1].node]
  }

  /** A plan without the destinations of the opposite order. */
  function Erased(plan: Combination): (r: Combination)
    ensures |r| == |plan|
  {
    seq(|plan|, i requires 0 <= i < |plan| => plan[i].(altNode := None))
  }

  function WithAlt(plan: Combination, alt: map<string, Node>): (r: Combination)
    ensures |r| == |plan|
  {
    seq(|plan|, i requires 0 <= i < |plan| =>
      plan[i].(altNode := if plan[i].pod.Key() in alt then Some(alt[plan[i].pod.Key()]) else None))
  }

  /** One complete greedy placement of the pods, in one of the two orders. */
  ghost predicate IsPlacement(plan: Combination, cluster: Cluster, candidates: seq<Node>, pods: seq<Pod>,
                              partnersFirst: bool) {
    && |plan| == |pods|
    && IsGreedy(OrderForPlacement(pods, partnersFirst), candidates, FreeMap(cluster, candidates, |candidates|),
                ResidentMap(cluster, candidates, |candidates|), plan)
  }

  ghost predicate IsBlocked(cluster: Cluster, candidates: seq<Node>, pods: seq<Pod>, partnersFirst: bool) {
    exists reached :: IsStuck(OrderForPlacement(pods, partnersFirst), candidates,
      FreeMap(cluster, candidates, |candidates|),
                              ResidentMap(cluster, candidates, |candidates|), reached)
  }

  /** The greedy placement is complete and passes the spread filter. */
  ghost predicate FindsPlan(cluster: Cluster, candidates: seq<Node>, pods: seq<Pod>) {
    exists plan :: IsPlacement(plan, cluster, candidates, pods, true) && SpreadHolds(plan, cluster)
  }

  /** What decides between a plan and None: without candidates there is none, not even for no pods. */
  ghost predicate ReturnsPlan(cluster: Cluster, candidates: seq<Node>, pods: seq<Pod>) {
    candidates != [] && FindsPlan(cluster, candidates, pods)
  }

  method PlaceInOrder(cluster: Cluster, candidates: seq<Node>, pods: seq<Pod>, partnersFirst: bool,
                      free: map<string, Resources>, resident: map<string, seq<Pod>>) returns (r: Option<Combination>)
    requires free == FreeMap(cluster, candidates, |candidates|)
             && resident == ResidentMap(cluster, candidates, |candidates|)
    ensures r.Some? ==> IsPlacement(r.value, cluster, candidates, pods, partnersFirst)
    ensures r.None? ==> IsBlocked(cluster, candidates, pods, partnersFirst)
  {
    hide IsGreedy, IsStuck, FreeMap, ResidentMap, OrderForPlacement;
    var ordered := OrderForPlacement(pods, partnersFirst);
    OrderIsPermutation(pods, partnersFirst);
    assert |ordered| == |multiset(ordered)| == |pods|;
    ghost var freeAtEnd;
    r, freeAtEnd := PlacePods(ordered, candidates, free, resident);
  }

  /** One feasible plan that moves every pod off the drained node, or None. A node with nothing to
      migrate gets the empty plan; no candidates, no plan. alternate is the placement in the
      opposite order, when there is one. */
  method BuildMigrationPlan(cluster: Cluster, candidates: seq<Node>, pods: seq<Pod>)
    returns (r: Option<Combination>, ghost alternate: Option<Combination>)
    ensures candidates == [] ==> r == None
    ensures candidates != [] && pods == [] ==> r == Some([])
    ensures r.Some? && pods != [] ==>
      && IsPlacement(Erased(r.value), cluster, candidates, pods, true)
      && SpreadHolds(r.value, cluster)
      && r.value == WithAlt(Erased(r.value),
                            if alternate.Some? then AltMap(alternate.value, |alternate.value|) else map[])
    ensures r.Some? && pods != [] ==>
      if alternate.Some? then IsPlacement(alternate.value, cluster, candidates, pods, false)
      else IsBlocked(cluster, candidates, pods, false)
    ensures r.Some? <==> ReturnsPlan(cluster, candidates, pods)
    ensures r.None? ==>
      || candidates == []
      || IsBlocked(cluster, candidates, pods, true)
      || exists plan :: IsPlacement(Erased(plan), cluster, candidates, pods, true) && !SpreadHolds(plan, cluster)
  {
    hide IsPlacement, IsBlocked, SpreadHolds, Free;
    alternate := None;
    if candidates == [] { return None, alternate; }
    if pods == [] {
      NothingToPlace(cluster, candidates);
      return Some([]), alternate;
    }
    var free: map<string, Resources>, resident: map<string, seq<Pod>> := map[], map[];
    for i := 0 to |candidates|
      invariant free == FreeMap(cluster, candidates, i) && resident == ResidentMap(cluster, candidates, i)
    {
      var f := NodeFreeResources(cluster, candidates[i]);
      free := free[candidates[i].name := f];
      resident := resident[candidates[i].name := WithoutSystemPods(PodsOn(cluster.pods, candidates[i].name))];
    }
    var first := PlaceInOrder(cluster, candidates, pods, true, free, resident);
    if first.None? {
      BlockedFindsNone(cluster, candidates, pods);
      return None, alternate;
    }
    var plan := first.value;
    PlacementHasNoAlt(plan, cluster, candidates, pods, true);
    var alt := PlaceInOrder(cluster, candidates, pods, false, free, resident);
    ghost var altMap: map<string, Node> := map[];
    if alt.Some? {
      var altNode: map<string, Node> := map[];
      for i := 0 to |alt.value|
        invariant altNode == AltMap(alt.value, i)
      {
        altNode := altNode[alt.value[i].pod.Key() := alt.value[i].node];
      }
      altMap := altNode;
      var annotated: Combination := [];
      for i := 0 to |plan|
        invariant annotated == WithAlt(plan, altNode)[..i]
      {
        var key := plan[i].pod.Key();
        annotated := annotated + [plan[i].(altNode := if key in altNode then Some(altNode[key]) else None)];
      }
      plan := annotated;
      alternate := alt;
    }
    assert Erased(plan) == first.value && plan == WithAlt(first.value, altMap);
    var kept := CheckTopologySpreadConstraints([plan], cluster);
    KeptSingleton(plan, c => SpreadHolds(c, cluster));
    if |kept| == 0 {
      SpreadFindsNone(plan, cluster, candidates, pods);
      return None, alternate;
    }
    ErasedSpread(plan, cluster);
    return Some(plan), alternate;
  }

  lemma NothingToPlace(cluster: Cluster, candidates: seq<Node>)
    ensures FindsPlan(cluster, candidates, [])
  {
    assert IsPlacement([], cluster, candidates, [], true) && SpreadHolds([], cluster);
  }

  lemma BlockedFindsNone(cluster: Cluster, candidates: seq<Node>, pods: seq<Pod>)
    requires IsBlocked(cluster, candidates, pods, true)
    ensures !FindsPlan(cluster, candidates, pods)
  {
    hide IsGreedy, IsStuck, SpreadHolds, FreeMap, ResidentMap, OrderForPlacement;
    var ordered := OrderForPlacement(pods, true);
    var free, resident := FreeMap(cluster, candidates, |candidates|), ResidentMap(cluster, candidates, |candidates|);
    var reached :| IsStuck(ordered, candidates, free, resident, reached);
    OrderIsPermutation(pods, true);
    assert |ordered| == |multiset(ordered)| == |pods|;
    forall plan | IsPlacement(plan, cluster, candidates, pods, true) ensures false {
      CompleteMeansNotStuck(ordered, candidates, free, resident, plan, reached);
    }
  }

  lemma PlacementIsUnique(p: Combination, q: Combination, cluster: Cluster, candidates: seq<Node>, pods: seq<Pod>)
    requires IsPlacement(p, cluster, candidates, pods, true) && IsPlacement(q, cluster, candidates, pods, true)
    ensures p == q
  {
    hide IsGreedy, FreeMap, ResidentMap, OrderForPlacement;
    GreedyIsDetermined(OrderForPlacement(pods, true), candidates, FreeMap(cluster, candidates, |candidates|),
                       ResidentMap(cluster, candidates, |candidates|), p, q, |p|);
  }

  lemma SpreadFindsNone(plan: Combination, cluster: Cluster, candidates: seq<Node>, pods: seq<Pod>)
    requires IsPlacement(Erased(plan), cluster, candidates, pods, true) && !SpreadHolds(plan, cluster)
    ensures !FindsPlan(cluster, candidates, pods)
  {
    hide IsPlacement, SpreadHolds;
    forall q | IsPlacement(q, cluster, candidates, pods, true) ensures !SpreadHolds(q, cluster) {
      PlacementIsUnique(Erased(plan), q, cluster, candidates, pods);
      ErasedSpread(plan, cluster);
    }
  }

  lemma PlacementHasNoAlt(plan: Combination, cluster: Cluster, candidates: seq<Node>, pods: seq<Pod>,
                          partnersFirst: bool)
    requires IsPlacement(plan, cluster, candidates, pods, partnersFirst)
    ensures Erased(plan) == plan && WithAlt(plan, map[]) == plan
  {
    hide FreeMap, ResidentMap, OrderForPlacement, IsGreedy;
    forall i | 0 <= i < |plan| ensures plan[i].altNode == None {
      GreedyStepIsAdmissible(OrderForPlacement(pods, partnersFirst), candidates,
        FreeMap(cluster, candidates, |candidates|),
                             ResidentMap(cluster, candidates, |candidates|), plan, i);
    }
  }

  // ---------------------------------------------------------------- destinations of the other order

  lemma {:induction false} AltMapHas(alt: Combination, i: nat, n: nat)
    requires i < n <= |alt|
    ensures alt[i].pod.Key() in AltMap(alt, n)
    ensures (forall k :: i < k < n ==> alt[k].pod.Key() != alt[i].pod.Key()) ==>
        AltMap(alt, n)[alt[i].pod.Key()] == alt[i].node
  {
    if i < n - 1 { AltMapHas(alt, i, n - 1); }
  }

  lemma PlacementHasPods(plan: Combination, cluster: Cluster, candidates: seq<Node>, pods: seq<Pod>,
                         partnersFirst: bool, i: nat)
    requires IsPlacement(plan, cluster, candidates, pods, partnersFirst) && i < |pods|
    ensures plan[i].pod == OrderForPlacement(pods, partnersFirst)[i]
  {
    hide FreeMap, ResidentMap, OrderForPlacement, IsGreedy;
    GreedyStepIsAdmissible(OrderForPlacement(pods, partnersFirst), candidates,
      FreeMap(cluster, candidates, |candidates|),
                           ResidentMap(cluster, candidates, |candidates|), plan, i);
  }

  lemma SamePodElsewhere(pods: seq<Pod>, i: nat) returns (j: nat)
    requires i < |pods|
    ensures |OrderForPlacement(pods, true)| == |OrderForPlacement(pods, false)| == |pods|
    ensures j < |pods| && OrderForPlacement(pods, false)[j] == OrderForPlacement(pods, true)[i]
  {
    OrderIsPermutation(pods, true);
    OrderIsPermutation(pods, false);
    hide OrderForPlacement;
    var a, b := OrderForPlacement(pods, true), OrderForPlacement(pods, false);
    assert |a| == |multiset(a)| == |multiset(pods)| == |multiset(b)| == |b|;
    assert a[i] in multiset(b);
    j :| 0 <= j < |b| && b[j] == a[i];
  }

  /** Whenever the opposite order has a placement, every planned pod records its destination there. */
  lemma {:induction false} AltNodeIsOppositePlacement(plan: Combination, alt: Combination, cluster: Cluster,
                                                      candidates: seq<Node>, pods: seq<Pod>, i: nat)
    returns (j: nat)
    requires IsPlacement(plan, cluster, candidates, pods, true) && IsPlacement(alt, cluster, candidates, pods, false)
    requires i < |pods|
    ensures j < |pods| && alt[j].pod == plan[i].pod
    ensures WithAlt(plan, AltMap(alt, |alt|))[i].altNode.Some?
    ensures UniqueKeys(OrderForPlacement(pods, false)) ==>
        WithAlt(plan, AltMap(alt, |alt|))[i].altNode == Some(alt[j].node)
  {
    hide OrderForPlacement;
    j := SamePodElsewhere(pods, i);
    PlacementHasPods(plan, cluster, candidates, pods, true, i);
    forall k | 0 <= k < |pods| ensures alt[k].pod == OrderForPlacement(pods, false)[k] {
      PlacementHasPods(alt, cluster, candidates, pods, false, k);
    }
    AltMapHas(alt, j, |alt|);
  }

  // ---------------------------------------------------------------- refinement of the batch filters

  ghost predicate DistinctNames(candidates: seq<Node>) {
    forall i, j :: 0 <= i < j < |candidates| ==> candidates[i].name != candidates[j].name
  }

  lemma {:induction false} MapsOf(cluster: Cluster, candidates: seq<Node>, c: nat, n: nat)
    requires DistinctNames(candidates) && c < n <= |candidates|
    ensures LookupFree(FreeMap(cluster, candidates, n), candidates[c].name) == Free(cluster, candidates[c])
    ensures Lookup(ResidentMap(cluster, candidates, n), candidates[c].name)
         == WithoutSystemPods(PodsOn(cluster.pods, candidates[c].name))
  {
    hide Free;
    if c < n - 1 { MapsOf(cluster, candidates, c, n - 1); }
  }

  /** A greedy plan, complete or not. */
  ghost predicate IsGreedyPlan(plan: Combination, cluster: Cluster, candidates: seq<Node>, pods: seq<Pod>) {
    IsGreedy(OrderForPlacement(pods, true), candidates, FreeMap(cluster, candidates, |candidates|),
             ResidentMap(cluster, candidates, |candidates|), plan)
  }

  /** The pods that stay on a node, system pods left out. */
  function Residents(cluster: Cluster, node: Node): seq<Pod> {
    WithoutSystemPods(PodsOn(cluster.pods, node.name))
  }

  /** The node passes every filter for the pod, once the first n moves of the plan are made. */
  ghost predicate Admits(node: Node, pod: Pod, cluster: Cluster, plan: Combination, n: nat)
    requires n <= |plan|
  {
    && ToleratesTaints(pod, node) && MatchesNodeAffinity(pod, node)
    && AffinityOnNode(Residents(cluster, node) + PlacedOn(plan, node.name, n), [pod])
    && Free(cluster, node).Minus(RequestedOn(plan, node.name, n)).Fits(EffectiveRequests(pod))
  }

  lemma AdmissibleIsAdmits(plan: Combination, cluster: Cluster, candidates: seq<Node>, pod: Pod, c: nat, n: nat)
    requires DistinctNames(candidates) && c < |candidates| && n <= |plan|
    ensures Admissible(pod, EffectiveRequests(pod), candidates[c],
                       FreeAfter(FreeMap(cluster, candidates, |candidates|), plan, n),
                       ResidentMap(cluster, candidates, |candidates|), PlacedAfter(plan, n))
       <==> Admits(candidates[c], pod, cluster, plan, n)
  {
    hide FreeMap, ResidentMap, ToleratesTaints, MatchesNodeAffinity, AffinityOnNode, EffectiveRequests, FreeAfter,
         PlacedAfter,
         Free, RequestedOn, PlacedOn;
    MapsOf(cluster, candidates, c, |candidates|);
    LedgerBalances(FreeMap(cluster, candidates, |candidates|), plan, candidates[c].name, n);
  }

  /** Every step of a greedy plan went to a candidate that admitted the pod. */
  lemma GreedyStepAdmits(plan: Combination, cluster: Cluster, candidates: seq<Node>, pods: seq<Pod>, i: nat)
    returns (c: nat)
    requires IsGreedyPlan(plan, cluster, candidates, pods) && DistinctNames(candidates) && i < |plan|
    ensures c < |candidates| && i < |OrderForPlacement(pods, true)|
    ensures plan[i] == Assignment(OrderForPlacement(pods, true)[i], candidates[c], None)
    ensures Admits(candidates[c], plan[i].pod, cluster, plan, i)
  {
    hide FreeMap, ResidentMap, OrderForPlacement, IsGreedy, Admits, Admissible, EffectiveRequests, FreeAfter,
         PlacedAfter;
    assert |plan| <= |OrderForPlacement(pods, true)| by { GreedyIsNoLonger(plan, cluster, candidates, pods); }
    GreedyStepIsAdmissible(OrderForPlacement(pods, true), candidates, FreeMap(cluster, candidates, |candidates|),
                           ResidentMap(cluster, candidates, |candidates|), plan, i);
    var k :| 0 <= k < |candidates| && plan[i].node == candidates[k];
    c := k;
    AdmissibleIsAdmits(plan, cluster, candidates, plan[i].pod, c, i);
  }

  lemma GreedyIsNoLonger(plan: Combination, cluster: Cluster, candidates: seq<Node>, pods: seq<Pod>)
    requires IsGreedyPlan(plan, cluster, candidates, pods)
    ensures |plan| <= |OrderForPlacement(pods, true)|
  {
  }

  /** The facts one greedy step leaves behind. */
  lemma StepFacts(plan: Combination, cluster: Cluster, candidates: seq<Node>, pods: seq<Pod>, i: nat) returns (c: nat)
    requires IsPlacement(plan, cluster, candidates, pods, true) && DistinctNames(candidates) && i < |plan|
    ensures c < |candidates| && plan[i].node == candidates[c]
    ensures Admits(plan[i].node, plan[i].pod, cluster, plan, i)
  {
    hide FreeMap, ResidentMap, OrderForPlacement, IsGreedy, Admits;
    c := GreedyStepAdmits(plan, cluster, candidates, pods, i);
  }

  lemma {:induction false} AppRequestedAtMost(plan: Combination, name: string, n: nat)
    requires n <= |plan|
    ensures AppRequestedOn(plan, name, n).cpu <= RequestedOn(plan, name, n).cpu
    ensures AppRequestedOn(plan, name, n).memory <= RequestedOn(plan, name, n).memory
  {
    if n > 0 {
      AppRequestsAtMostEffective(plan[n - 1].pod);
      hide AppRequests, EffectiveRequests;
      AppRequestedAtMost(plan, name, n - 1);
    }
  }

  lemma {:induction false} BareAllocatableIs(comb: Combination, node: Node, n: nat)
    requires n <= |comb| && forall k :: 0 <= k < |comb| && comb[k].node.name == node.name ==> comb[k].node == node
    ensures BareAllocatable(comb, node.name, n).Some? ==> BareAllocatable(comb, node.name, n).value == node.allocatable
  {
    if n > 0 { BareAllocatableIs(comb, node, n - 1); }
  }

  lemma FreeAtMostAllocatable(cluster: Cluster, node: Node)
    ensures Free(cluster, node).cpu <= node.allocatable.cpu && Free(cluster, node).memory <= node.allocatable.memory
  {
  }

  lemma PlacementFitsBare(plan: Combination, cluster: Cluster, candidates: seq<Node>, pods: seq<Pod>)
    requires IsPlacement(plan, cluster, candidates, pods, true) && DistinctNames(candidates)
    ensures FitsBare(plan)
  {
    hide IsPlacement, AppRequests, EffectiveRequests, Free, BareAllocatable, AppRequestedOn, RequestedOn;
    forall i | 0 <= i < |plan| ensures BareLeft(plan, i).Fits(AppRequests(plan[i].pod)) {
      var c := StepFacts(plan, cluster, candidates, pods, i);
      forall k | 0 <= k < |plan| && plan[k].node.name == plan[i].node.name ensures plan[k].node == plan[i].node {
        var d := StepFacts(plan, cluster, candidates, pods, k);
      }
      BareAllocatableFound(plan, i, |plan|);
      BareAllocatableIs(plan, plan[i].node, |plan|);
      FreeAtMostAllocatable(cluster, plan[i].node);
      AppRequestedAtMost(plan, plan[i].node.name, i);
      AppRequestsAtMostEffective(plan[i].pod);
    }
  }

  /** Adding a pod that gets on with everyone already there. */
  lemma AffinityGrows(existing: seq<Pod>, placed: seq<Pod>, pod: Pod)
    requires AffinityOnNode(existing, placed) && AffinityOnNode(existing + placed, [pod])
    ensures AffinityOnNode(existing, placed + [pod])
  {
    hide Compatible;
    var newPods, all := placed + [pod], existing + placed;
    forall j | 0 <= j < |existing| ensures Compatible(pod, existing[j]) {
      assert all[j] == existing[j] && Compatible([pod][0], all[j]);
    }
    forall j | 0 <= j < |placed| ensures Compatible(placed[j], pod) {
      assert all[|existing| + j] == placed[j] && Compatible([pod][0], all[|existing| + j]);
      CompatibleIsSymmetric(pod, placed[j]);
    }
  }

  lemma CompatibleIsSymmetric(a: Pod, b: Pod)
    requires Compatible(a, b)
    ensures Compatible(b, a)
  {
  }

  lemma AffinityStep(plan: Combination, cluster: Cluster, name: string, n: nat)
    requires 0 < n <= |plan| && Admits(plan[n - 1].node, plan[n - 1].pod, cluster, plan, n - 1)
    requires AffinityOnNode(WithoutSystemPods(PodsOn(cluster.pods, name)), PlacedOn(plan, name, n - 1))
    ensures AffinityOnNode(WithoutSystemPods(PodsOn(cluster.pods, name)), PlacedOn(plan, name, n))
  {
    hide AffinityOnNode, PodsOn, WithoutSystemPods, ToleratesTaints, MatchesNodeAffinity, Free, EffectiveRequests,
         RequestedOn;
    var before := PlacedOn(plan, name, n - 1);
    if plan[n - 1].node.name == name {
      AffinityGrows(WithoutSystemPods(PodsOn(cluster.pods, name)), before, plan[n - 1].pod);
    } else {
      assert before + [] == before;
    }
  }

  lemma NobodyPlaced(plan: Combination, cluster: Cluster, name: string)
    ensures AffinityOnNode(WithoutSystemPods(PodsOn(cluster.pods, name)), PlacedOn(plan, name, 0))
  {
    hide PodsOn, WithoutSystemPods, Compatible;
  }

  lemma {:induction false} PlacementKeepsAffinity(plan: Combination, cluster: Cluster, candidates: seq<Node>,
                                                 pods: seq<Pod>, name: string, n: nat)
    requires IsPlacement(plan, cluster, candidates, pods, true) && DistinctNames(candidates) && n <= |plan|
    ensures AffinityOnNode(WithoutSystemPods(PodsOn(cluster.pods, name)), PlacedOn(plan, name, n))
  {
    hide IsPlacement, DistinctNames, AffinityOnNode, PodsOn, WithoutSystemPods, PlacedOn, Admits;
    if n == 0 {
      NobodyPlaced(plan, cluster, name);
    } else {
      PlacementKeepsAffinity(plan, cluster, candidates, pods, name, n - 1);
      var c := StepFacts(plan, cluster, candidates, pods, n - 1);
      AffinityStep(plan, cluster, name, n);
    }
  }

  /** The plan is one of the enumerated assignments of the ordered pods. */
  lemma {:induction false} PlacementIsEnumerated(plan: Combination, cluster: Cluster, candidates: seq<Node>,
                                                 pods: seq<Pod>) returns (index: nat)
    requires IsPlacement(plan, cluster, candidates, pods, true) && DistinctNames(candidates) && candidates != []
    ensures index < Power(|candidates|, |pods|)
    ensures |OrderForPlacement(pods, true)| == |pods|
    ensures Combo(OrderForPlacement(pods, true), candidates, index) == plan
  {
    hide IsPlacement, OrderForPlacement, Free;
    var ordered := OrderForPlacement(pods, true);
    OrderIsPermutation(pods, true);
    assert |ordered| == |multiset(ordered)| == |multiset(pods)| == |pods|;
    PlacementHasNoAlt(plan, cluster, candidates, pods, true);
    PlacementLength(plan, cluster, candidates, pods);
    forall i | 0 <= i < |plan|
      ensures exists c: nat :: c < |candidates| && plan[i] == Assignment(ordered[i], candidates[c], None)
    {
      var c := StepFacts(plan, cluster, candidates, pods, i);
      PlacementHasPods(plan, cluster, candidates, pods, true, i);
      assert Erased(plan)[i] == plan[i];
    }
    var f: seq<nat> := [];
    while |f| < |plan|
      invariant |f| <= |plan|
      invariant forall i :: 0 <= i < |f| ==>
                  f[i] < |candidates| && plan[i] == Assignment(ordered[i], candidates[f[i]], None)
      decreases |plan| - |f|
    {
      var c: nat :| c < |candidates| && plan[|f|] == Assignment(ordered[|f|], candidates[c], None);
      f := f + [c];
    }
    EveryAssignmentOnce(ordered, candidates, f);
    index := Value(f, |candidates|);
    assert Combo(ordered, candidates, index) == plan;
  }

  lemma PlacementLength(plan: Combination, cluster: Cluster, candidates: seq<Node>, pods: seq<Pod>)
    requires IsPlacement(plan, cluster, candidates, pods, true)
    ensures |plan| == |pods|
  {
  }

  ghost predicate SurvivesBatchFilters(comb: Combination, cluster: Cluster) {
    && FitsBare(comb)
    && TaintsTolerated(comb)
    && NodeAffinityMatched(comb)
    && AffinityHolds(comb, cluster.pods)
  }

  /** Every greedy placement passes the resource, taint, node-affinity and pod-affinity filters. */
  lemma {:induction false} PlacementSurvivesFilters(plan: Combination, cluster: Cluster, candidates: seq<Node>,
                                                    pods: seq<Pod>)
    requires IsPlacement(plan, cluster, candidates, pods, true) && DistinctNames(candidates)
    ensures SurvivesBatchFilters(plan, cluster)
  {
    PlacementFitsBare(plan, cluster, candidates, pods);
    hide IsPlacement, ToleratesTaints, MatchesNodeAffinity, FitsBare;
    forall i | 0 <= i < |plan|
      ensures ToleratesTaints(plan[i].pod, plan[i].node) && MatchesNodeAffinity(plan[i].pod, plan[i].node)
      ensures AffinityHoldsOn(plan, cluster.pods, plan[i].node.name)
    {
      var c := StepFacts(plan, cluster, candidates, pods, i);
      PlacementKeepsAffinity(plan, cluster, candidates, pods, plan[i].node.name, |plan|);
    }
  }

  // ---------------------------------------------------------------- the erased plan and its spread

  lemma {:induction false} ErasedMoves(plan: Combination, c: SpreadConstraint, zones: map<string, string>, z: string,
                                       n: nat)
    requires n <= |plan|
    ensures MovedNames(Erased(plan), n) == MovedNames(plan, n)
    ensures MovedCount(Erased(plan), c, zones, z, n) == MovedCount(plan, c, zones, z, n)
  {
    if n > 0 { ErasedMoves(plan, c, zones, z, n - 1); }
  }

  lemma ErasedCounts(plan: Combination, cluster: Cluster, c: SpreadConstraint)
    ensures Counts(Erased(plan), cluster.nodes, cluster.pods, c) == Counts(plan, cluster.nodes, cluster.pods, c)
  {
    hide Selected, InZone, Erased;
    var zones := ZoneMap(cluster.nodes, c.topologyKey, |cluster.nodes|);
    ErasedMoves(plan, c, zones, "", |plan|);
    forall z ensures MovedCount(Erased(plan), c, zones, z, |plan|) == MovedCount(plan, c, zones, z, |plan|) {
      ErasedMoves(plan, c, zones, z, |plan|);
    }
  }

  lemma ErasedSpread(plan: Combination, cluster: Cluster)
    ensures SpreadHolds(Erased(plan), cluster) <==> SpreadHolds(plan, cluster)
  {
    hide PodSpreadHolds;
    forall i | 0 <= i < |plan|
      ensures PodSpreadHolds(Erased(plan), plan[i].pod, cluster) <==> PodSpreadHolds(plan, plan[i].pod, cluster)
    {
      ErasedPodSpread(plan, plan[i].pod, cluster);
    }
    assert forall i :: 0 <= i < |plan| ==> Erased(plan)[i].pod == plan[i].pod;
    assert |Erased(plan)| == |plan|;
  }

  lemma ErasedPodSpread(plan: Combination, pod: Pod, cluster: Cluster)
    ensures PodSpreadHolds(Erased(plan), pod, cluster) <==> PodSpreadHolds(plan, pod, cluster)
  {
    hide Counts, SkewOf;
    forall j | 0 <= j < |pod.spread|
      ensures Counts(Erased(plan), cluster.nodes, cluster.pods, pod.spread[j])
           == Counts(plan, cluster.nodes, cluster.pods, pod.spread[j])
    {
      ErasedCounts(plan, cluster, pod.spread[j]);
    }
  }

  /** The whole refinement: what the planner returns is, up to the recorded alternatives, one of the
      enumerated assignments, and the chain of batch filters keeps it to the end. */
  lemma {:induction false} PlanRefinesEnumeration(plan: Combination, cluster: Cluster, candidates: seq<Node>,
                                                  pods: seq<Pod>, combs: seq<Combination>)
    returns (index: nat)
    requires candidates != [] && DistinctNames(candidates)
    requires IsPlacement(Erased(plan), cluster, candidates, pods, true) && SpreadHolds(plan, cluster)
    requires |combs| == Power(|candidates|, |pods|)
    requires forall i :: 0 <= i < |combs| ==> combs[i] == Combo(OrderForPlacement(pods, true), candidates, i)
    ensures index < |combs| && combs[index] == Erased(plan)
    ensures Erased(plan) in Survivors(combs, cluster)
  {
    index := PlacementIsEnumerated(Erased(plan), cluster, candidates, pods);
    PlacementSurvivesFilters(Erased(plan), cluster, candidates, pods);
    ErasedSpread(plan, cluster);
    hide Erased, IsPlacement, FitsBare, TaintsTolerated, NodeAffinityMatched, AffinityHolds, SpreadHolds, Survivors,
         Combo, Power, OrderForPlacement;
    SurvivorsIff(combs, cluster, Erased(plan));
  }
}
