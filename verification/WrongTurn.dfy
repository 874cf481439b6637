/** Exactly when the planner misses a plan, for all inputs: it takes a step that no feasible plan takes,
    although one takes all the steps before. */
module WrongTurn {
  import opened Kube
  import opened PodRequests
  import opened Ordering
  import opened Placement
  import opened Filters
  import opened Migration
  import opened Completeness

  /** Some feasible plan begins with these moves. */
  ghost predicate IsExtendable(before: Combination, cluster: Cluster, candidates: seq<Node>, pods: seq<Pod>) {
    exists plan :: IsFeasible(plan, cluster, candidates, pods) && before <= plan
  }

  /** After these moves the scores send the next pod to a node where no feasible plan sends it. */
  ghost predicate IsWrongTurn(before: Combination, step: Assignment, cluster: Cluster, candidates: seq<Node>,
                              pods: seq<Pod>) {
    && IsGreedyPlan(before + [step], cluster, candidates, pods)
    && IsExtendable(before, cluster, candidates, pods)
    && !IsExtendable(before + [step], cluster, candidates, pods)
  }

  ghost predicate TakesWrongTurn(cluster: Cluster, candidates: seq<Node>, pods: seq<Pod>) {
    exists before, step :: IsWrongTurn(before, step, cluster, candidates, pods)
  }

  // ---------------------------------------------------------------- a feasible plan can always go on

  lemma {:induction false} LedgerOfPrefix(before: Combination, plan: Combination, name: string, n: nat)
    requires before <= plan && n <= |before|
    ensures RequestedOn(before, name, n) == RequestedOn(plan, name, n)
    ensures PlacedOn(before, name, n) == PlacedOn(plan, name, n)
  {
    hide EffectiveRequests;
    if n > 0 { LedgerOfPrefix(before, plan, name, n - 1); }
  }

  lemma {:induction false} LedgerGrows(plan: Combination, name: string, i: nat, n: nat)
    requires i <= n <= |plan|
    ensures RequestedOn(plan, name, i).cpu <= RequestedOn(plan, name, n).cpu
    ensures RequestedOn(plan, name, i).memory <= RequestedOn(plan, name, n).memory
    ensures PlacedOn(plan, name, i) <= PlacedOn(plan, name, n)
  {
    hide EffectiveRequests;
    if i < n { LedgerGrows(plan, name, i, n - 1); }
  }

  /** Whoever gets on with everybody in the end gets on with those who are there already. */
  lemma AffinityOfNext(residents: seq<Pod>, before: seq<Pod>, all: seq<Pod>, pod: Pod)
    requires AffinityOnNode(residents, all) && before + [pod] <= all
    ensures AffinityOnNode(residents + before, [pod])
  {
    hide Compatible;
    var n := |before|;
    assert all[n] == pod;
    forall j | 0 <= j < |residents + before| ensures Compatible(pod, (residents + before)[j]) {
      if j < |residents| {
        assert Compatible(all[n], residents[j]);
      } else {
        assert all[j - |residents|] == before[j - |residents|];
        CompatibleIsSymmetric(all[j - |residents|], all[n]);
      }
    }
  }

  lemma FitsNext(free: Resources, before: Requests, r: Requests, total: Requests)
    requires free.Fits(total) && before.cpu + r.cpu <= total.cpu && before.memory + r.memory <= total.memory
    ensures free.Minus(before).Fits(r)
  {
  }

  /** The node a feasible plan takes next admits the pod, so the placer does not get stuck there. */
  lemma NextIsAdmitted(before: Combination, plan: Combination, cluster: Cluster, candidates: seq<Node>, pods: seq<Pod>)
    requires IsFeasible(plan, cluster, candidates, pods) && before <= plan && |before| < |plan|
    ensures Admits(plan[|before|].node, plan[|before|].pod, cluster, before, |before|)
  {
    var n, node, pod := |before|, plan[|before|].node, plan[|before|].pod;
    assert IsKept(plan, n, cluster);
    hide IsFeasible;
    LedgerOfPrefix(before, plan, node.name, n);
    LedgerGrows(plan, node.name, n + 1, |plan|);
    assert PlacedOn(plan, node.name, n + 1) == PlacedOn(before, node.name, n) + [pod];
    var r := EffectiveRequests(pod);
    assert RequestedOn(plan, node.name, n + 1).cpu == RequestedOn(before, node.name, n).cpu + r.cpu;
    assert RequestedOn(plan, node.name, n + 1).memory == RequestedOn(before, node.name, n).memory + r.memory;
    hide ToleratesTaints, MatchesNodeAffinity, AffinityOnNode, Free, EffectiveRequests, Residents, PlacedOn,
         RequestedOn;
    AffinityOfNext(Residents(cluster, node), PlacedOn(before, node.name, n), PlacedOn(plan, node.name, |plan|), pod);
    FitsNext(Free(cluster, node), RequestedOn(before, node.name, n), r, RequestedOn(plan, node.name, |plan|));
  }

  /** The placer's next step after moves that some feasible plan begins with. */
  lemma NextStep(before: Combination, plan: Combination, cluster: Cluster, candidates: seq<Node>, pods: seq<Pod>)
    returns (step: Assignment)
    requires DistinctNames(candidates) && IsGreedyPlan(before, cluster, candidates, pods)
    requires IsFeasible(plan, cluster, candidates, pods) && before <= plan && |before| < |plan|
    ensures IsGreedyPlan(before + [step], cluster, candidates, pods)
  {
    NextIsAdmitted(before, plan, cluster, candidates, pods);
    var n := |before|;
    assert plan[n].pod == Ordered(pods)[n];
    var c :| 0 <= c < |candidates| && candidates[c] == plan[n].node;
    hide IsFeasible, IsGreedyPlan, Admits, Ordered, DistinctNames;
    var longer := ExtendPlan(before, cluster, candidates, pods, c);
    step := longer[n];
    assert longer == before + [step];
  }

  // ---------------------------------------------------------------- the two directions

  lemma CompletePrefix(before: Combination, plan: Combination, cluster: Cluster, candidates: seq<Node>, pods: seq<Pod>)
    requires IsGreedyPlan(before, cluster, candidates, pods) && IsFeasible(plan, cluster, candidates, pods)
    requires before <= plan && |before| == |plan|
    ensures FindsPlan(cluster, candidates, pods)
  {
    OrderedLength(pods);
    assert before == plan;
    hide SpreadHolds, IsKept, IsGreedy, OrderForPlacement, FreeMap, ResidentMap;
    assert IsPlacement(plan, cluster, candidates, pods, true);
  }

  /** From moves that a feasible plan begins with, the placer finds a plan or takes a wrong turn. */
  lemma {:induction false} FindsOrTurns(before: Combination, cluster: Cluster, candidates: seq<Node>, pods: seq<Pod>)
    requires DistinctNames(candidates)
    requires IsGreedyPlan(before, cluster, candidates, pods) && IsExtendable(before, cluster, candidates, pods)
    ensures FindsPlan(cluster, candidates, pods) || TakesWrongTurn(cluster, candidates, pods)
    decreases |Ordered(pods)| - |before|
  {
    hide IsFeasible, IsGreedyPlan, FindsPlan, Ordered;
    var plan: Combination :| IsFeasible(plan, cluster, candidates, pods) && before <= plan;
    FeasibleLength(plan, cluster, candidates, pods);
    if |before| == |plan| {
      CompletePrefix(before, plan, cluster, candidates, pods);
    } else {
      var step := NextStep(before, plan, cluster, candidates, pods);
      if IsExtendable(before + [step], cluster, candidates, pods) {
        FindsOrTurns(before + [step], cluster, candidates, pods);
      } else {
        assert IsWrongTurn(before, step, cluster, candidates, pods);
      }
    }
  }

  lemma FeasibleLength(plan: Combination, cluster: Cluster, candidates: seq<Node>, pods: seq<Pod>)
    requires IsFeasible(plan, cluster, candidates, pods)
    ensures |plan| == |Ordered(pods)|
  {
  }

  /** The planner never turns back: what it finds begins with every step it takes. */
  lemma FoundBeginsWith(plan: Combination, q: Combination, cluster: Cluster, candidates: seq<Node>, pods: seq<Pod>)
    requires IsPlacement(plan, cluster, candidates, pods, true) && IsGreedyPlan(q, cluster, candidates, pods)
    ensures q <= plan
  {
    OrderedLength(pods);
    GreedyIsNoLonger(q, cluster, candidates, pods);
    hide IsGreedy, OrderForPlacement, FreeMap, ResidentMap;
    GreedyIsDetermined(Ordered(pods), candidates, FreeMap(cluster, candidates, |candidates|),
                       ResidentMap(cluster, candidates, |candidates|), plan, q, |q|);
  }

  lemma TurnFindsNone(before: Combination, step: Assignment, cluster: Cluster, candidates: seq<Node>, pods: seq<Pod>)
    requires DistinctNames(candidates) && IsWrongTurn(before, step, cluster, candidates, pods)
    ensures !FindsPlan(cluster, candidates, pods) && HasFeasible(cluster, candidates, pods)
  {
    hide IsPlacement, SpreadHolds, IsFeasible, IsGreedyPlan, DistinctNames;
    if FindsPlan(cluster, candidates, pods) {
      var plan: Combination :| IsPlacement(plan, cluster, candidates, pods, true) && SpreadHolds(plan, cluster);
      PlacementIsFeasible(plan, cluster, candidates, pods);
      FoundBeginsWith(plan, before + [step], cluster, candidates, pods);
    }
  }

  lemma EmptyIsGreedy(cluster: Cluster, candidates: seq<Node>, pods: seq<Pod>)
    ensures IsGreedyPlan([], cluster, candidates, pods)
    ensures HasFeasible(cluster, candidates, pods) ==> IsExtendable([], cluster, candidates, pods)
  {
    hide IsFeasible;
    if HasFeasible(cluster, candidates, pods) {
      var plan: Combination :| IsFeasible(plan, cluster, candidates, pods);
      assert [] <= plan;
    }
  }

  /** A feasible plan is missed exactly when the placer takes a wrong turn. */
  lemma {:induction false} MissesIff(cluster: Cluster, candidates: seq<Node>, pods: seq<Pod>)
    requires DistinctNames(candidates)
    ensures HasFeasible(cluster, candidates, pods) && !FindsPlan(cluster, candidates, pods)
       <==> TakesWrongTurn(cluster, candidates, pods)
  {
    hide IsWrongTurn, IsExtendable, IsGreedyPlan, HasFeasible, FindsPlan;
    if HasFeasible(cluster, candidates, pods) && !FindsPlan(cluster, candidates, pods) {
      EmptyIsGreedy(cluster, candidates, pods);
      FindsOrTurns([], cluster, candidates, pods);
    }
    if TakesWrongTurn(cluster, candidates, pods) {
      var before, step :| IsWrongTurn(before, step, cluster, candidates, pods);
      TurnFindsNone(before, step, cluster, candidates, pods);
    }
  }

  /** The promise of a plan unless none exists is kept exactly when the placer takes no wrong turn and
      there are candidates or pods. */
  lemma {:induction false} CompleteIff(cluster: Cluster, candidates: seq<Node>, pods: seq<Pod>)
    requires DistinctNames(candidates)
    ensures (ReturnsPlan(cluster, candidates, pods) <==> HasFeasible(cluster, candidates, pods))
       <==> !TakesWrongTurn(cluster, candidates, pods) && (candidates != [] || pods != [])
  {
    MissesIff(cluster, candidates, pods);
    if candidates == [] {
      NoCandidates(cluster, pods);
    } else if FindsPlan(cluster, candidates, pods) {
      FoundIsFeasible(cluster, candidates, pods);
    }
    hide TakesWrongTurn, HasFeasible, FindsPlan;
  }
}
