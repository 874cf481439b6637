/** Choosing the node to switch off: the candidates, the evacuation plan of each, and the ranking. */
module Selection {
  import opened Options
  import opened Sequences
  import opened Kube
  import opened Ordering
  import opened Filters
  import opened Sums
  import opened TopologyScore
  import opened AffinityLoss
  import opened Migration
  import opened Ranking
  import opened Topsis
  import Protocol

  /** A node as the API server lists it, with what the protocol knows of it. */
  datatype Listed = Listed(node: Node, machine: Protocol.Machine)

  // ---------------------------------------------------------------- candidates and pods

  function Candidates(listed: seq<Listed>): seq<Node> {
    if listed == [] then []
    else
      var rest := Candidates(listed[..|listed| - 1]);
      var last := listed[|listed| - 1];
      if Protocol.IsScaleDownCandidate(last.machine) then rest + [last.node] else rest
  }

  /** Ready, schedulable workers. */
  method ScaleDownCandidates(listed: seq<Listed>) returns (candidates: seq<Node>)
    ensures candidates == Candidates(listed)
  {
    candidates := [];
    for i := 0 to |listed|
      invariant candidates == Candidates(listed[..i])
    {
      assert listed[..i + 1][..i] == listed[..i];
      var m := listed[i].machine;
      if m.role != Protocol.Worker || !m.ready { continue; }
      if m.unschedulable { continue; }
      candidates := candidates + [listed[i].node];
    }
    assert listed[..|listed|] == listed;
  }

  /** Every other candidate. */
  function Destinations(candidates: seq<Node>, name: string): seq<Node> {
    if candidates == [] then []
    else
      var rest := Destinations(candidates[..|candidates| - 1], name);
      var last := candidates[|candidates| - 1];
      if last.name != name then rest + [last] else rest
  }

  /** stays tells static, mirror and DaemonSet pods. */
  predicate IsMigratable(p: Pod, stays: Pod -> bool) {
    !stays(p) && !p.Finished() && p.namespace != "monitoring" && !("kube" <= p.namespace)
  }

  function Migratable(pods: seq<Pod>, node: string, stays: Pod -> bool): seq<Pod> {
    if pods == [] then []
    else
      var rest := Migratable(pods[..|pods| - 1], node, stays);
      var last := pods[|pods| - 1];
      if last.nodeName == node && IsMigratable(last, stays) then rest + [last] else rest
  }

  method GetMigratablePodsOnNode(pods: seq<Pod>, node: string, stays: Pod -> bool) returns (migratable: seq<Pod>)
    ensures migratable == Migratable(pods, node, stays)
  {
    migratable := [];
    for i := 0 to |pods|
      invariant migratable == Migratable(pods[..i], node, stays)
    {
      assert pods[..i + 1][..i] == pods[..i];
      var pod := pods[i];
      if pod.nodeName != node { continue; }
      if stays(pod) { continue; }
      if pod.phase == Succeeded || pod.phase == Failed { continue; }
      if pod.namespace == "monitoring" || "kube" <= pod.namespace { continue; }
      migratable := migratable + [pod];
    }
    assert pods[..|pods|] == pods;
  }

  method OtherCandidates(candidates: seq<Node>, name: string) returns (others: seq<Node>)
    ensures others == Destinations(candidates, name)
  {
    others := [];
    for i := 0 to |candidates|
      invariant others == Destinations(candidates[..i], name)
    {
      assert candidates[..i + 1][..i] == candidates[..i];
      if candidates[i].name != name { others := others + [candidates[i]]; }
    }
    assert candidates[..|candidates|] == candidates;
  }

  // ---------------------------------------------------------------- the selection

  /** plan moves every migratable pod of the node to other candidates. */
  ghost predicate IsEvacuation(plan: Combination, cluster: Cluster, candidates: seq<Node>, name: string,
                               stays: Pod -> bool) {
    var others, pods := Destinations(candidates, name), Migratable(cluster.pods, name, stays);
    && others != []
    && (if pods == [] then plan == []
        else IsPlacement(Erased(plan), cluster, others, pods, true) && SpreadHolds(plan, cluster))
  }

  ghost predicate CannotEvacuate(cluster: Cluster, candidates: seq<Node>, name: string, stays: Pod -> bool) {
    var others, pods := Destinations(candidates, name), Migratable(cluster.pods, name, stays);
    || others == []
    || (pods != [] && (IsBlocked(cluster, others, pods, true)
                       || exists plan ::
                            IsPlacement(Erased(plan), cluster, others, pods, true) && !SpreadHolds(plan, cluster)))
  }

  method Evacuation(cluster: Cluster, candidates: seq<Node>, name: string, stays: Pod -> bool)
    returns (r: Option<Combination>)
    ensures r.Some? ==> IsEvacuation(r.value, cluster, candidates, name, stays)
    ensures r.None? ==> CannotEvacuate(cluster, candidates, name, stays)
    ensures r.Some? <==> ReturnsPlan(cluster, Destinations(candidates, name), Migratable(cluster.pods, name, stays))
  {
    hide FindsPlan, IsPlacement, IsBlocked, SpreadHolds, Migratable, Destinations;
    var pods := GetMigratablePodsOnNode(cluster.pods, name, stays);
    var others := OtherCandidates(candidates, name);
    ghost var alternate;
    r, alternate := BuildMigrationPlan(cluster, others, pods);
  }

  datatype Selected = Chosen(node: string) | NoNode | NoWeights

  /** The seven criteria of a node, given its annotations and the plan that would evacuate it. A missing
      power-cycle annotation counts as zero. */
  ghost function CriteriaOf(node: Node, m: Protocol.Machine, plan: Combination, cluster: Cluster): Criteria
    requires Protocol.IsRankedDown(m)
  {
    Criteria(
      node.name,
      Protocol.PowerCycles(m),
      m.energyProfile.value,
      HalfUp(NodeLossSum(node, plan, |plan|)),
      ExpectedLoss(WithoutSystemPods(PodsOn(cluster.pods, node.name)), plan),
      CreatedViolations(plan, cluster),
      |PodsOn(cluster.pods, node.name)|,
      MapSum(CollectPlan(plan, |plan|, plan, cluster)))
  }

  predicate HasRating(name: string, machines: map<string, Protocol.Machine>) {
    name in machines && Protocol.IsRankedDown(machines[name])
  }

  method Rate(node: Node, machines: map<string, Protocol.Machine>, plan: Combination, cluster: Cluster)
    returns (c: Option<Criteria>)
    ensures c.Some? <==> HasRating(node.name, machines)
    ensures c.Some? ==> c.value == CriteriaOf(node, machines[node.name], plan, cluster)
    // every criterion is the measure it is named after
    ensures c.Some? ==>
      var m, pods := machines[node.name], PodsOn(cluster.pods, node.name);
      && c.value.node == node.name && m.energyProfile == Protocol.Parsed(c.value.energyProfile)
      && (m.powerCycle == Protocol.Parsed(c.value.powerCycle) || (m.powerCycle.Missing? && c.value.powerCycle == 0))
      && c.value.preferredNodeAffinity == HalfUp(NodeLossSum(node, plan, |plan|))
      && c.value.preferredInterPodAffinity == ExpectedLoss(WithoutSystemPods(pods), plan)
      && c.value.preferredInterPodAntiAffinity == CreatedViolations(plan, cluster)
      && c.value.numberOfRunningPods == |pods|
      && c.value.topologySpreadScore == MapSum(CollectPlan(plan, |plan|, plan, cluster))
  {
    hide NodeLossSum, ExpectedLoss, CreatedViolations, MapSum, CollectPlan, PodsOn, WithoutSystemPods;
    var pods := PodsOn(cluster.pods, node.name);
    if node.name !in machines { return None; }
    var m := machines[node.name];
    if m.powerCycle.Malformed? || !m.energyProfile.Parsed? { return None; }
    var powerCycle := if m.powerCycle.Missing? then 0 else m.powerCycle.value;
    var nodeAffinity := GetPreferredNodeAffinity(node, plan);
    var podAffinity := GetPreferredInterPodAffinity(WithoutSystemPods(pods), plan);
    var podAntiAffinity := GetPreferredInterPodAntiAffinity(plan, cluster);
    var spread := GetTopologySpreadScore(plan, cluster);
    return Some(Criteria(node.name, powerCycle, m.energyProfile.value, nodeAffinity, podAffinity, podAntiAffinity,
      |pods|, spread));
  }

  /** What one candidate contributes to the ranking: nothing when it cannot be evacuated or rated. */
  ghost predicate IsAccounted(node: Node, cs: seq<Criteria>, cluster: Cluster, candidates: seq<Node>,
                              stays: Pod -> bool,
                              machines: map<string, Protocol.Machine>) {
    || CannotEvacuate(cluster, candidates, node.name, stays)
    || !HasRating(node.name, machines)
    || exists plan :: IsEvacuation(plan, cluster, candidates, node.name, stays)
                      && CriteriaOf(node, machines[node.name], plan, cluster) in cs
  }

  ghost predicate Backs(plan: Combination, c: Criteria, node: Node, cluster: Cluster, candidates: seq<Node>,
                        stays: Pod -> bool, machines: map<string, Protocol.Machine>) {
    && IsEvacuation(plan, cluster, candidates, node.name, stays)
    && HasRating(node.name, machines) && c == CriteriaOf(node, machines[node.name], plan, cluster)
  }

  ghost predicate IsBacked(c: Criteria, cluster: Cluster, candidates: seq<Node>, stays: Pod -> bool,
                           machines: map<string, Protocol.Machine>) {
    exists i, plan :: 0 <= i < |candidates| && Backs(plan, c, candidates[i], cluster, candidates, stays, machines)
  }

  /** Rates every candidate that can be evacuated. */
  method RateCandidates(cluster: Cluster, candidates: seq<Node>, stays: Pod -> bool,
                        machines: map<string, Protocol.Machine>)
    returns (cs: seq<Criteria>)
    ensures forall k :: 0 <= k < |cs| ==> IsBacked(cs[k], cluster, candidates, stays, machines)
    ensures forall i :: 0 <= i < |candidates| ==> IsAccounted(candidates[i], cs, cluster, candidates, stays, machines)
  {
    hide IsEvacuation, CannotEvacuate, CriteriaOf, HasRating;
    cs := [];
    for i := 0 to |candidates|
      invariant forall k :: 0 <= k < |cs| ==> IsBacked(cs[k], cluster, candidates, stays, machines)
      invariant forall j :: 0 <= j < i ==> IsAccounted(candidates[j], cs, cluster, candidates, stays, machines)
    {
      var node := candidates[i];
      var plan := Evacuation(cluster, candidates, node.name, stays);
      if plan.None? { continue; }
      var rating := Rate(node, machines, plan.value, cluster);
      if rating.None? { continue; }
      var c := rating.value;
      assert Backs(plan.value, c, candidates[i], cluster, candidates, stays, machines);
      assert IsBacked(c, cluster, candidates, stays, machines);
      ghost var before := cs;
      cs := cs + [c];
      forall j | 0 <= j < i ensures IsAccounted(candidates[j], cs, cluster, candidates, stays, machines) {
        StaysAccounted(candidates[j], before, c, cluster, candidates, stays, machines);
      }
    }
  }

  lemma StaysAccounted(node: Node, cs: seq<Criteria>, c: Criteria, cluster: Cluster, candidates: seq<Node>,
                       stays: Pod -> bool, machines: map<string, Protocol.Machine>)
    requires IsAccounted(node, cs, cluster, candidates, stays, machines)
    ensures IsAccounted(node, cs + [c], cluster, candidates, stays, machines)
  {
    hide IsEvacuation, CannotEvacuate, CriteriaOf, HasRating;
  }

  /** The selected node is the first best of all rated candidates; cs are the ratings it reports. */
  method SelectNodeScaleDown(listed: seq<Listed>, cluster: Cluster, stays: Pod -> bool,
                             machines: map<string, Protocol.Machine>, weights: Option<Weights>, root: real -> real)
    returns (r: Selected, cs: seq<Criteria>)
    ensures forall k :: 0 <= k < |cs| ==> IsBacked(cs[k], cluster, Candidates(listed), stays, machines)
    ensures forall i :: 0 <= i < |Candidates(listed)| ==>
              IsAccounted(Candidates(listed)[i], cs, cluster, Candidates(listed), stays, machines)
    ensures r == NoNode <==> cs == []
    ensures r == NoWeights <==> cs != [] && weights.None?
    ensures r.Chosen? ==>
      exists b: nat :: b < |cs| && IsFirstBest(Scored(cs, weights.value, root), b) && r.node == cs[b].node
  {
    hide IsAccounted, IsBacked, Candidates, IsStableRanking, Scores, IsFirstBest;
    var candidates := ScaleDownCandidates(listed);
    cs := RateCandidates(cluster, candidates, stays, machines);
    if cs == [] { return NoNode, cs; }
    if weights.None? { return NoWeights, cs; }
    var ranking := ApplyTopsis(cs, weights.value, root);
    ghost var b := FirstBestExists(Scored(cs, weights.value, root));
    HeadIsFirstBest(ranking, Scored(cs, weights.value, root), b);
    ScoredNode(cs, weights.value, root, b);
    assert b < |cs| by { FirstBestInRange(Scored(cs, weights.value, root), b); }
    r := Chosen(ranking[0].node);
  }

  // ---------------------------------------------------------------- the node to switch on

  /** The workers that are off and carry both annotations. */
  function Wakeable(listed: seq<Listed>): seq<CriteriaScaleUp> {
    if listed == [] then []
    else
      var rest := Wakeable(listed[..|listed| - 1]);
      var last := listed[|listed| - 1];
      if Protocol.CanWake(last.machine)
      then rest + [CriteriaScaleUp(last.node.name, last.machine.powerCycle.value, last.machine.energyProfile.value)]
      else rest
  }

  method RateScaleUp(listed: seq<Listed>) returns (cs: seq<CriteriaScaleUp>)
    ensures cs == Wakeable(listed)
  {
    cs := [];
    for i := 0 to |listed|
      invariant cs == Wakeable(listed[..i])
    {
      assert listed[..i + 1][..i] == listed[..i];
      var m := listed[i].machine;
      if m.role != Protocol.Worker || m.ready { continue; }
      if !m.powerCycle.Parsed? { continue; }
      if !m.energyProfile.Parsed? { continue; }
      cs := cs + [CriteriaScaleUp(listed[i].node.name, m.powerCycle.value, m.energyProfile.value)];
    }
    assert listed[..|listed|] == listed;
  }

  /** The first best of the workers that can be switched on. */
  method SelectNodeScaleUp(listed: seq<Listed>, weights: Option<WeightsScaleUp>, root: real -> real)
    returns (r: Selected)
    ensures r == NoNode <==> Wakeable(listed) == []
    ensures r == NoWeights <==> Wakeable(listed) != [] && weights.None?
    ensures r.Chosen? ==>
      exists b: nat :: b < |Wakeable(listed)| && r.node == Wakeable(listed)[b].node
                       && IsFirstBest(ScoredScaleUp(Wakeable(listed), weights.value, root), b)
  {
    hide Wakeable, IsStableRanking, Scores, IsFirstBest;
    var cs := RateScaleUp(listed);
    if cs == [] { return NoNode; }
    if weights.None? { return NoWeights; }
    var ranking := ApplyTopsisScaleUp(cs, weights.value, root);
    ghost var b := FirstBestExists(ScoredScaleUp(cs, weights.value, root));
    HeadIsFirstBest(ranking, ScoredScaleUp(cs, weights.value, root), b);
    assert b < |cs| by { FirstBestInRange(ScoredScaleUp(cs, weights.value, root), b); }
    ScoredScaleUpNode(cs, weights.value, root, b);
    r := Chosen(ranking[0].node);
  }

  lemma ScoredScaleUpNode(cs: seq<CriteriaScaleUp>, w: WeightsScaleUp, root: real -> real, b: nat)
    requires b < |cs|
    ensures ScoredScaleUp(cs, w, root)[b].node == cs[b].node
  {
    hide Closeness;
  }

  lemma ScoredNode(cs: seq<Criteria>, w: Weights, root: real -> real, b: nat)
    requires b < |cs|
    ensures Scored(cs, w, root)[b].node == cs[b].node
  {
    hide Closeness;
  }

  lemma FirstBestInRange(s: seq<RankedNode>, b: nat)
    requires IsFirstBest(s, b)
    ensures b < |s|
  {
  }

  // ---------------------------------------------------------------- what the selection guarantees

  lemma {:induction false} DestinationsAre(candidates: seq<Node>, name: string)
    ensures forall d :: d in Destinations(candidates, name) <==> d in candidates && d.name != name
  {
    if candidates != [] {
      var last := candidates[|candidates| - 1];
      var init := candidates[..|candidates| - 1];
      DestinationsAre(init, name);
      assert candidates == init + [last];
    }
  }

  lemma AppendDistinct(rest: seq<Node>, last: Node)
    requires DistinctNames(rest) && forall d :: d in rest ==> d.name != last.name
    ensures DistinctNames(rest + [last])
  {
  }

  lemma DistinctInit(init: seq<Node>, last: Node)
    requires DistinctNames(init + [last])
    ensures DistinctNames(init) && forall d :: d in init ==> d.name != last.name
  {
    var all := init + [last];
    forall i, j | 0 <= i < j < |init| ensures init[i].name != init[j].name {
      assert all[i] == init[i] && all[j] == init[j];
    }
    forall d | d in init ensures d.name != last.name {
      var i :| 0 <= i < |init| && init[i] == d;
      assert all[i] == d && all[|init|] == last;
    }
  }

  lemma {:induction false} DestinationsDiffer(candidates: seq<Node>, name: string)
    requires DistinctNames(candidates)
    ensures DistinctNames(Destinations(candidates, name))
  {
    if candidates != [] {
      var last := candidates[|candidates| - 1];
      var init := candidates[..|candidates| - 1];
      assert candidates == init + [last];
      hide DistinctNames;
      DistinctInit(init, last);
      DestinationsDiffer(init, name);
      DestinationsAre(init, name);
      if last.name != name { AppendDistinct(Destinations(init, name), last); }
    } else {
      assert Destinations(candidates, name) == candidates;
    }
  }

  lemma {:induction false} CandidatesAre(listed: seq<Listed>)
    ensures forall d :: d in Candidates(listed) <==>
              exists i :: 0 <= i < |listed| && listed[i].node == d && Protocol.IsScaleDownCandidate(listed[i].machine)
  {
    if listed != [] {
      var last := listed[|listed| - 1];
      var init := listed[..|listed| - 1];
      CandidatesAre(init);
      assert listed == init + [last];
      forall d ensures d in Candidates(listed) <==>
                         exists i :: 0 <= i < |listed| && listed[i].node == d
                           && Protocol.IsScaleDownCandidate(listed[i].machine)
      {
        if i :| 0 <= i < |listed| && listed[i].node == d && Protocol.IsScaleDownCandidate(listed[i].machine) {
          if i < |init| { assert init[i] == listed[i]; }
        }
      }
    }
  }

  /** The candidates are the ready, schedulable workers, in list order. */
  lemma {:induction false} CandidatesAreFiltered(listed: seq<Listed>, p: Listed -> bool, f: Listed -> Node)
    requires forall l :: p(l) <==>
                         l.machine.role == Protocol.Worker && l.machine.ready && !l.machine.unschedulable
    requires forall l :: f(l) == l.node
    ensures IsFiltered(Candidates(listed), listed, p, f)
  {
    if listed == [] {
      FilteredEmpty(p, f);
    } else {
      var n := |listed| - 1;
      CandidatesAreFiltered(listed[..n], p, f);
      hide IsFiltered;
      FilteredLast(Candidates(listed), Candidates(listed[..n]), listed, p, f);
    }
  }

  /** A node's pods may go to every other candidate, in list order. */
  lemma {:induction false} DestinationsAreFiltered(candidates: seq<Node>, name: string, p: Node -> bool,
                                                   f: Node -> Node)
    requires forall c :: p(c) <==> c.name != name
    requires forall c :: f(c) == c
    ensures IsFiltered(Destinations(candidates, name), candidates, p, f)
  {
    if candidates == [] {
      FilteredEmpty(p, f);
    } else {
      var n := |candidates| - 1;
      DestinationsAreFiltered(candidates[..n], name, p, f);
      hide IsFiltered;
      FilteredLast(Destinations(candidates, name), Destinations(candidates[..n], name), candidates, p, f);
    }
  }

  /** The migratable pods are those of the node that do not stay, are not finished, and belong to no system
      namespace, in list order. */
  lemma {:induction false} MigratableAreFiltered(pods: seq<Pod>, node: string, stays: Pod -> bool, p: Pod -> bool,
                                                 f: Pod -> Pod)
    requires forall q :: p(q) <==> q.nodeName == node && !stays(q) && q.phase != Succeeded && q.phase != Failed
                                   && q.namespace != "monitoring" && !("kube" <= q.namespace)
    requires forall q :: f(q) == q
    ensures IsFiltered(Migratable(pods, node, stays), pods, p, f)
  {
    if pods == [] {
      FilteredEmpty(p, f);
    } else {
      var n := |pods| - 1;
      MigratableAreFiltered(pods[..n], node, stays, p, f);
      hide IsFiltered;
      FilteredLast(Migratable(pods, node, stays), Migratable(pods[..n], node, stays), pods, p, f);
    }
  }

  /** The nodes to wake are the workers that are off and carry both annotations, in list order, each with
      its own readings. */
  lemma {:induction false} WakeableAreFiltered(listed: seq<Listed>, p: Listed -> bool, f: Listed -> CriteriaScaleUp)
    requires forall l :: p(l) <==> l.machine.role == Protocol.Worker && !l.machine.ready
                                   && l.machine.powerCycle.Parsed? && l.machine.energyProfile.Parsed?
    requires forall l: Listed :: l.machine.powerCycle.Parsed? && l.machine.energyProfile.Parsed? ==>
                         f(l) == CriteriaScaleUp(l.node.name, l.machine.powerCycle.value, l.machine.energyProfile.value)
    ensures IsFiltered(Wakeable(listed), listed, p, f)
  {
    if listed == [] {
      FilteredEmpty(p, f);
    } else {
      var n := |listed| - 1;
      WakeableAreFiltered(listed[..n], p, f);
      hide IsFiltered;
      FilteredLast(Wakeable(listed), Wakeable(listed[..n]), listed, p, f);
    }
  }

  /** An evacuation plan moves exactly the migratable pods, each to another candidate, and passes every
      hard filter. */
  lemma {:induction false} EvacuationIsSafe(plan: Combination, cluster: Cluster, candidates: seq<Node>, name: string,
                                            stays: Pod -> bool)
    requires IsEvacuation(plan, cluster, candidates, name, stays) && DistinctNames(candidates) && plan != []
    ensures multiset(PodsOf(plan)) == multiset(Migratable(cluster.pods, name, stays))
    ensures forall i :: 0 <= i < |plan| ==> plan[i].node in candidates && plan[i].node.name != name
    ensures SurvivesBatchFilters(Erased(plan), cluster) && SpreadHolds(plan, cluster)
  {
    var others, pods := Destinations(candidates, name), Migratable(cluster.pods, name, stays);
    DestinationsAre(candidates, name);
    DestinationsDiffer(candidates, name);
    hide IsPlacement, SpreadHolds, Destinations, Migratable, SurvivesBatchFilters, OrderForPlacement;
    PlacementSurvivesFilters(Erased(plan), cluster, others, pods);
    PlacementLength(Erased(plan), cluster, others, pods);
    OrderIsPermutation(pods, true);
    forall i | 0 <= i < |plan|
      ensures plan[i].node in candidates && plan[i].node.name != name
      ensures plan[i].pod == OrderForPlacement(pods, true)[i]
    {
      var c := StepFacts(Erased(plan), cluster, others, pods, i);
      PlacementHasPods(Erased(plan), cluster, others, pods, true, i);
      assert others[c] in others;
    }
    assert |OrderForPlacement(pods, true)| == |multiset(OrderForPlacement(pods, true))| == |multiset(pods)|;
    assert PodsOf(plan) == OrderForPlacement(pods, true);
  }

  function PodsOf(plan: Combination): seq<Pod> {
    seq(|plan|, i requires 0 <= i < |plan| => plan[i].pod)
  }

  /** The list shows every node, as the protocol knows it. */
  ghost predicate Describes(machines: map<string, Protocol.Machine>, listed: seq<Listed>) {
    && (forall i :: 0 <= i < |listed| ==>
          listed[i].node.name in machines && machines[listed[i].node.name] == listed[i].machine)
    && forall n :: n in machines ==> exists i :: 0 <= i < |listed| && listed[i].node.name == n
  }

  /** Every rated node is one the protocol lets a scale-down select. */
  lemma {:induction false} RatedNodeIsEligible(c: Criteria, cluster: Cluster, listed: seq<Listed>, stays: Pod -> bool,
                                              s: Protocol.State, scaling: int)
    requires IsBacked(c, cluster, Candidates(listed), stays, s.machines) && Describes(s.machines, listed) && scaling < 0
    ensures Protocol.IsEligible(s, scaling, c.node)
  {
    var candidates := Candidates(listed);
    var i, plan :| 0 <= i < |candidates| && Backs(plan, c, candidates[i], cluster, candidates, stays, s.machines);
    DestinationsAre(candidates, c.node);
    CandidatesAre(listed);
    hide IsPlacement, SpreadHolds, Candidates, Destinations, Migratable;
    var other := Destinations(candidates, c.node)[0];
    assert candidates[i] in candidates && other in candidates && other.name != c.node;
    assert other.name in s.machines && Protocol.IsScaleDownCandidate(s.machines[other.name]);
  }

  ghost predicate Rates(cs: seq<CriteriaScaleUp>, name: string) {
    exists k :: 0 <= k < |cs| && cs[k].node == name
  }

  ghost predicate ListsToWake(listed: seq<Listed>, name: string) {
    exists i :: 0 <= i < |listed| && listed[i].node.name == name && Protocol.CanWake(listed[i].machine)
  }

  lemma {:induction false} WakeableAre(listed: seq<Listed>, name: string)
    ensures Rates(Wakeable(listed), name) <==> ListsToWake(listed, name)
  {
    hide Protocol.CanWake;
    if listed != [] {
      var last := listed[|listed| - 1];
      var init := listed[..|listed| - 1];
      WakeableAre(init, name);
      assert ListsToWake(listed, name) <==>
             ListsToWake(init, name) || (last.node.name == name && Protocol.CanWake(last.machine)) by {
        assert forall i :: 0 <= i < |init| ==> init[i] == listed[i];
      }
      if Protocol.CanWake(last.machine) {
        var rest := Wakeable(init);
        assert Wakeable(listed)[|rest|].node == last.node.name;
        assert forall k :: 0 <= k < |rest| ==> Wakeable(listed)[k] == rest[k];
      }
    }
  }

  /** A scale-up chooses a node the protocol lets it select, and finds none only when there is none. */
  lemma {:induction false} WakeableIsEligible(listed: seq<Listed>, s: Protocol.State, scaling: int)
    requires Describes(s.machines, listed) && scaling > 0
    ensures forall k :: 0 <= k < |Wakeable(listed)| ==> Protocol.IsEligible(s, scaling, Wakeable(listed)[k].node)
    ensures Wakeable(listed) == [] <==> !Protocol.HasNodeToWake(s)
  {
    hide Protocol.CanWake, Wakeable;
    forall k | 0 <= k < |Wakeable(listed)| ensures Protocol.IsEligible(s, scaling, Wakeable(listed)[k].node) {
      WakeableAre(listed, Wakeable(listed)[k].node);
      assert Rates(Wakeable(listed), Wakeable(listed)[k].node);
    }
    if Wakeable(listed) != [] {
      assert Protocol.IsEligible(s, scaling, Wakeable(listed)[0].node);
    }
    if Protocol.HasNodeToWake(s) {
      var n :| n in s.machines && Protocol.CanWake(s.machines[n]);
      assert ListsToWake(listed, n);
      WakeableAre(listed, n);
    }
  }

  /** No rated candidate has a better closeness than the chosen node, and none listed before it is at
      least as good in every criterion. */
  lemma {:induction false} ChosenBeatsAll(cs: seq<Criteria>, w: Weights, root: real -> real, b: nat, other: nat)
    requires IsSquareRoot(root) && NonNegativeWeights(w)
    requires IsFirstBest(Scored(cs, w, root), b) && other < |cs|
    ensures b < |cs| && Scored(cs, w, root)[other].closeness <= Scored(cs, w, root)[b].closeness
    ensures other < b ==> !AtLeastAsGood(cs[other], cs[b])
  {
    hide Scored;
    if other < b && AtLeastAsGood(cs[other], cs[b]) { BetterNodeScoresHigher(cs, w, root, other, b); }
  }
}
