/** The batch filters over enumerated assignments: the method the greedy placer replaced, and its
    simple specification. */
module Filters {
  import opened Options
  import opened Sequences
  import opened Sums
  import opened Kube
  import opened PodRequests
  import Scoring
  import opened Placement
  import opened Skew
  import opened TopologyScore

  /** The combinations a filter keeps, in order. */
  ghost function Kept(combs: seq<Combination>, keep: Combination -> bool): seq<Combination> {
    if combs == [] then []
    else Kept(combs[..|combs| - 1], keep) + (if keep(combs[|combs| - 1]) then [combs[|combs| - 1]] else [])
  }

  lemma KeptStep(combs: seq<Combination>, keep: Combination -> bool, i: nat)
    requires i < |combs|
    ensures Kept(combs[..i + 1], keep) == Kept(combs[..i], keep) + (if keep(combs[i]) then [combs[i]] else [])
  {
    assert combs[..i + 1][..i] == combs[..i];
  }

  // ---------------------------------------------------------------- resources

  /** Allocatable of the first assigned node with this name. */
  function BareAllocatable(comb: Combination, name: string, n: nat): Option<Resources>
    requires n <= |comb|
  {
    if n == 0 then None
    else if BareAllocatable(comb, name, n - 1).Some? then BareAllocatable(comb, name, n - 1)
    else if comb[n - 1].node.name == name then Some(comb[n - 1].node.allocatable) else None
  }

  function AppRequestedOn(comb: Combination, name: string, n: nat): Requests
    requires n <= |comb|
  {
    if n == 0 then Requests(0, 0)
    else
      var before, r := AppRequestedOn(comb, name, n - 1), AppRequests(comb[n - 1].pod);
      if comb[n - 1].node.name == name then Requests(before.cpu + r.cpu, before.memory + r.memory) else before
  }

  lemma {:induction false} BareAllocatableFound(comb: Combination, i: nat, n: nat)
    requires i < n <= |comb|
    ensures BareAllocatable(comb, comb[i].node.name, n).Some?
  {
    if i < n - 1 { BareAllocatableFound(comb, i, n - 1); }
  }

  /** Bare allocatable minus the app-container requests of the earlier assignments to the node. */
  ghost function BareLeft(comb: Combination, i: nat): Resources
    requires i < |comb|
  {
    BareAllocatableFound(comb, i, |comb|);
    BareAllocatable(comb, comb[i].node.name, |comb|).value.Minus(AppRequestedOn(comb, comb[i].node.name, i))
  }

  /** Every pod fits on its node, as if the node were empty but for the plan. */
  ghost predicate FitsBare(comb: Combination) {
    forall i :: 0 <= i < |comb| ==> BareLeft(comb, i).Fits(AppRequests(comb[i].pod))
  }

  /** Assignments to one node name speak of one node. */
  ghost predicate NamesAreNodes(comb: Combination) {
    forall i, j :: 0 <= i < |comb| && 0 <= j < |comb| && comb[i].node.name == comb[j].node.name ==>
      comb[i].node == comb[j].node
  }

  lemma {:induction false} BareAllocatableIs(comb: Combination, i: nat, n: nat)
    requires NamesAreNodes(comb) && i < |comb| && n <= |comb|
    ensures var name := comb[i].node.name;
            BareAllocatable(comb, name, n).Some? ==> BareAllocatable(comb, name, n).value == comb[i].node.allocatable
  {
    if n > 0 { BareAllocatableIs(comb, i, n - 1); }
  }

  lemma {:induction false} RequestedGrows(comb: Combination, name: string, n: nat, m: nat)
    requires n <= m <= |comb|
    ensures AppRequestedOn(comb, name, n).cpu <= AppRequestedOn(comb, name, m).cpu
    ensures AppRequestedOn(comb, name, n).memory <= AppRequestedOn(comb, name, m).memory
  {
    hide AppRequests;
    if n < m { RequestedGrows(comb, name, n, m - 1); }
  }

  /** The app requests that the first n assignments bring to the node, in one dimension. */
  ghost predicate AreBrought(m: map<int, int>, comb: Combination, name: string, n: nat, memory: bool)
    requires n <= |comb|
  {
    && (forall k :: k in m <==> 0 <= k < n && comb[k].node.name == name)
    && forall k :: k in m ==> m[k] == if memory then AppRequests(comb[k].pod).memory else AppRequests(comb[k].pod).cpu
  }

  lemma {:induction false} RequestedIsTotal(comb: Combination, name: string, n: nat, memory: bool)
    returns (m: map<int, int>)
    requires n <= |comb|
    ensures AreBrought(m, comb, name, n, memory)
    ensures MapSum(m) == if memory then AppRequestedOn(comb, name, n).memory else AppRequestedOn(comb, name, n).cpu
  {
    hide AppRequests;
    if n == 0 {
      m := map[];
    } else {
      m := RequestedIsTotal(comb, name, n - 1, memory);
      if comb[n - 1].node.name == name {
        var r := AppRequests(comb[n - 1].pod);
        MapSumAdd(m, n - 1, if memory then r.memory else r.cpu);
        m := m[n - 1 := if memory then r.memory else r.cpu];
      }
    }
  }

  /** What the assignments bring to the node fits it together. */
  ghost predicate FitsTogether(comb: Combination, name: string, all: Resources) {
    exists c, m ::
      && AreBrought(c, comb, name, |comb|, false) && MapSum(c) <= all.cpu
      && AreBrought(m, comb, name, |comb|, true) && MapSum(m) <= all.memory
  }

  lemma BroughtAreUnique(a: map<int, int>, b: map<int, int>, comb: Combination, name: string, n: nat, memory: bool)
    requires n <= |comb| && AreBrought(a, comb, name, n, memory) && AreBrought(b, comb, name, n, memory)
    ensures a == b
  {
    assert forall k :: k in a <==> k in b;
    assert forall k :: k in a ==> a[k] == b[k];
  }

  lemma TotalFits(comb: Combination, name: string, all: Resources)
    ensures (AppRequestedOn(comb, name, |comb|).cpu <= all.cpu
             && AppRequestedOn(comb, name, |comb|).memory <= all.memory) <==> FitsTogether(comb, name, all)
  {
    var c := RequestedIsTotal(comb, name, |comb|, false);
    var m := RequestedIsTotal(comb, name, |comb|, true);
    forall a | AreBrought(a, comb, name, |comb|, false) { BroughtAreUnique(a, c, comb, name, |comb|, false); }
    forall a | AreBrought(a, comb, name, |comb|, true) { BroughtAreUnique(a, m, comb, name, |comb|, true); }
    hide AreBrought, AppRequestedOn, MapSum;
  }

  lemma {:induction false} LastOnNode(comb: Combination, name: string, n: nat) returns (k: nat)
    requires n <= |comb| && exists i :: 0 <= i < n && comb[i].node.name == name
    ensures k < n && comb[k].node.name == name
    ensures var r, q := AppRequestedOn(comb, name, k), AppRequests(comb[k].pod);
            AppRequestedOn(comb, name, n) == Requests(r.cpu + q.cpu, r.memory + q.memory)
  {
    hide AppRequests;
    if comb[n - 1].node.name == name { k := n - 1; } else { k := LastOnNode(comb, name, n - 1); }
  }

  lemma FitsOnNode(comb: Combination, i: nat)
    requires NamesAreNodes(comb) && FitsBare(comb) && i < |comb|
    ensures AppRequestedOn(comb, comb[i].node.name, |comb|).cpu <= comb[i].node.allocatable.cpu
    ensures AppRequestedOn(comb, comb[i].node.name, |comb|).memory <= comb[i].node.allocatable.memory
  {
    hide AppRequests, AppRequestedOn, BareAllocatable;
    var k := LastOnNode(comb, comb[i].node.name, |comb|);
    BareAllocatableFound(comb, k, |comb|);
    BareAllocatableIs(comb, k, |comb|);
    assert BareLeft(comb, k).Fits(AppRequests(comb[k].pod));
  }

  lemma FitsAtStep(comb: Combination, i: nat)
    requires NamesAreNodes(comb) && i < |comb|
    requires AppRequestedOn(comb, comb[i].node.name, |comb|).cpu <= comb[i].node.allocatable.cpu
    requires AppRequestedOn(comb, comb[i].node.name, |comb|).memory <= comb[i].node.allocatable.memory
    ensures BareLeft(comb, i).Fits(AppRequests(comb[i].pod))
  {
    hide AppRequests, BareAllocatable;
    RequestedGrows(comb, comb[i].node.name, i + 1, |comb|);
    BareAllocatableFound(comb, i, |comb|);
    BareAllocatableIs(comb, i, |comb|);
  }

  /** The pod-by-pod test passes exactly when, for every node, the app requests of all the pods that the
      combination sends there fit its allocatable resources together. */
  lemma {:induction false} FitsIffTogether(comb: Combination)
    requires NamesAreNodes(comb)
    ensures FitsBare(comb) <==>
            forall i :: 0 <= i < |comb| ==> FitsTogether(comb, comb[i].node.name, comb[i].node.allocatable)
  {
    hide AppRequestedOn, BareLeft, AppRequests, FitsTogether, NamesAreNodes;
    forall i | 0 <= i < |comb| && FitsBare(comb)
      ensures FitsTogether(comb, comb[i].node.name, comb[i].node.allocatable)
    {
      FitsOnNode(comb, i);
      TotalFits(comb, comb[i].node.name, comb[i].node.allocatable);
    }
    forall i | 0 <= i < |comb| && FitsTogether(comb, comb[i].node.name, comb[i].node.allocatable)
      ensures BareLeft(comb, i).Fits(AppRequests(comb[i].pod))
    {
      TotalFits(comb, comb[i].node.name, comb[i].node.allocatable);
      FitsAtStep(comb, i);
    }
  }

  method ComputeAppRequests(pod: Pod) returns (r: Requests)
    ensures r == AppRequests(pod)
  {
    var cpu, mem := 0, 0;
    for i := 0 to |pod.containers|
      invariant cpu == Total(AppCpu(pod), i) && mem == Total(AppMemory(pod), i)
    {
      cpu, mem := cpu + pod.containers[i].cpu, mem + pod.containers[i].memory;
    }
    r := Requests(cpu, mem);
  }

  method InitialResources(comb: Combination) returns (nodeAvailable: map<string, Resources>)
    ensures forall name :: BareAllocatable(comb, name, |comb|) ==
              if name in nodeAvailable then Some(nodeAvailable[name]) else None
  {
    nodeAvailable := map[];
    for i := 0 to |comb|
      invariant forall name ::
                  BareAllocatable(comb, name, i) == if name in nodeAvailable then Some(nodeAvailable[name]) else None
    {
      if comb[i].node.name !in nodeAvailable {
        nodeAvailable := nodeAvailable[comb[i].node.name := comb[i].node.allocatable];
      }
    }
  }

  /** The filter's budget before assignment i. */
  ghost predicate IsBudget(available: map<string, Resources>, comb: Combination, i: nat)
    requires i <= |comb|
  {
    forall name :: BareAllocatable(comb, name, |comb|).Some? ==>
      && name in available
      && available[name] == BareAllocatable(comb, name, |comb|).value.Minus(AppRequestedOn(comb, name, i))
  }

  lemma BudgetStart(comb: Combination, available: map<string, Resources>)
    requires forall name ::
               BareAllocatable(comb, name, |comb|) == if name in available then Some(available[name]) else None
    ensures IsBudget(available, comb, 0)
  {
  }

  lemma BudgetStep(comb: Combination, available: map<string, Resources>, i: nat)
    requires i < |comb| && IsBudget(available, comb, i)
    ensures var name := comb[i].node.name;
            && name in available && available[name] == BareLeft(comb, i)
            && IsBudget(available[name := available[name].Minus(AppRequests(comb[i].pod))], comb, i + 1)
  {
    hide AppRequests, BareAllocatable;
    BareAllocatableFound(comb, i, |comb|);
  }

  method FitsResources(comb: Combination) returns (valid: bool)
    ensures valid == FitsBare(comb)
  {
    hide AppRequests, BareAllocatable, BareLeft, IsBudget;
    var nodeAvailable := InitialResources(comb);
    BudgetStart(comb, nodeAvailable);
    for i := 0 to |comb|
      invariant IsBudget(nodeAvailable, comb, i)
      invariant forall k :: 0 <= k < i ==> BareLeft(comb, k).Fits(AppRequests(comb[k].pod))
    {
      var req := ComputeAppRequests(comb[i].pod);
      BudgetStep(comb, nodeAvailable, i);
      var name := comb[i].node.name;
      if !nodeAvailable[name].Fits(req) { return false; }
      nodeAvailable := nodeAvailable[name := nodeAvailable[name].Minus(req)];
    }
    return true;
  }

  /** None stays None and an empty list becomes the list of one empty combination. */
  method CheckResources(combs: Option<seq<Combination>>) returns (r: Option<seq<Combination>>)
    ensures r == if combs.None? then None else if combs.value == [] then Some([[]])
                 else Some(Kept(combs.value, c => FitsBare(c)))
  {
    if combs.None? { return None; }
    if combs.value == [] { return Some([[]]); }
    ghost var keep := c => FitsBare(c);
    var kept: seq<Combination> := [];
    for i := 0 to |combs.value|
      invariant kept == Kept(combs.value[..i], keep)
    {
      var valid := FitsResources(combs.value[i]);
      KeptStep(combs.value, keep, i);
      if valid { kept := kept + [combs.value[i]]; }
    }
    assert combs.value[..|combs.value|] == combs.value;
    r := Some(kept);
  }

  // ---------------------------------------------------------------- taints and node affinity

  predicate TaintsTolerated(comb: Combination) {
    forall i :: 0 <= i < |comb| ==> ToleratesTaints(comb[i].pod, comb[i].node)
  }

  predicate NodeAffinityMatched(comb: Combination) {
    forall i :: 0 <= i < |comb| ==> MatchesNodeAffinity(comb[i].pod, comb[i].node)
  }

  method CheckTaints(combs: seq<Combination>) returns (kept: seq<Combination>)
    ensures kept == Kept(combs, c => TaintsTolerated(c))
  {
    ghost var keep := c => TaintsTolerated(c);
    kept := [];
    for i := 0 to |combs|
      invariant kept == Kept(combs[..i], keep)
    {
      var comb, valid := combs[i], true;
      for k := 0 to |comb|
        invariant valid <==> forall q :: 0 <= q < k ==> ToleratesTaints(comb[q].pod, comb[q].node)
      {
        if !ToleratesTaints(comb[k].pod, comb[k].node) { valid := false; }
      }
      KeptStep(combs, keep, i);
      if valid { kept := kept + [comb]; }
    }
    assert combs[..|combs|] == combs;
  }

  method CheckNodeAffinity(combs: seq<Combination>) returns (kept: seq<Combination>)
    ensures kept == Kept(combs, c => NodeAffinityMatched(c))
  {
    ghost var keep := c => NodeAffinityMatched(c);
    kept := [];
    for i := 0 to |combs|
      invariant kept == Kept(combs[..i], keep)
    {
      var comb, valid := combs[i], true;
      for k := 0 to |comb|
        invariant valid <==> forall q :: 0 <= q < k ==> MatchesNodeAffinity(comb[q].pod, comb[q].node)
      {
        if !MatchesNodeAffinity(comb[k].pod, comb[k].node) { valid := false; }
      }
      KeptStep(combs, keep, i);
      if valid { kept := kept + [comb]; }
    }
    assert combs[..|combs|] == combs;
  }

  // ---------------------------------------------------------------- pod affinity

  /** On every destination the residents and the newcomers get on with each other. */
  ghost predicate AffinityHolds(comb: Combination, pods: seq<Pod>) {
    forall i :: 0 <= i < |comb| ==>
      AffinityHoldsOn(comb, pods, comb[i].node.name)
  }

  lemma {:induction false} PlacedKeys(comb: Combination, name: string, n: nat)
    requires n <= |comb|
    ensures name in PlacedAfter(comb, n) <==> exists k :: 0 <= k < n && comb[k].node.name == name
  {
    if n > 0 { PlacedKeys(comb, name, n - 1); }
  }

  ghost predicate AffinityHoldsOn(comb: Combination, pods: seq<Pod>, name: string) {
    AffinityOnNode(WithoutSystemPods(PodsOn(pods, name)), PlacedOn(comb, name, |comb|))
  }

  method AffinityOfCombination(comb: Combination, pods: seq<Pod>) returns (valid: bool)
    ensures valid == AffinityHolds(comb, pods)
  {
    hide AffinityOnNode, EffectiveRequests, PlacedAfter;
    PlacedAfterStep(comb, 0);
    var podsByNode: map<string, seq<Pod>> := map[];
    for i := 0 to |comb|
      invariant podsByNode == PlacedAfter(comb, i)
    {
      PlacedAfterStep(comb, i);
      var name := comb[i].node.name;
      podsByNode := podsByNode[name := (if name in podsByNode then podsByNode[name] else []) + [comb[i].pod]];
    }
    valid := EachNodeAllows(comb, pods, podsByNode);
    forall i | 0 <= i < |comb| ensures comb[i].node.name in podsByNode {
      PlacedKeys(comb, comb[i].node.name, |comb|);
    }
    if !valid {
      ghost var name :| name in podsByNode && !AffinityHoldsOn(comb, pods, name);
      PlacedKeys(comb, name, |comb|);
    }
  }

  lemma PlacedAfterStep(comb: Combination, i: nat)
    ensures PlacedAfter(comb, 0) == map[]
    ensures i < |comb| ==>
              (var name := comb[i].node.name;
               PlacedAfter(comb, i + 1)
               == PlacedAfter(comb, i)[name := Scoring.Lookup(PlacedAfter(comb, i), name) + [comb[i].pod]])
  {
  }

  method EachNodeAllows(comb: Combination, pods: seq<Pod>, podsByNode: map<string, seq<Pod>>) returns (valid: bool)
    requires podsByNode == PlacedAfter(comb, |comb|)
    ensures valid <==> forall name :: name in podsByNode ==> AffinityHoldsOn(comb, pods, name)
  {
    hide AffinityOnNode, EffectiveRequests, PlacedAfter;
    var left := podsByNode.Keys;
    while left != {}
      invariant left <= podsByNode.Keys
      invariant forall name :: name in podsByNode && name !in left ==> AffinityHoldsOn(comb, pods, name)
      decreases |left|
    {
      var name :| name in left;
      LedgerBalances(map[], comb, name, |comb|);
      var ok := CheckAffinityOnNode(WithoutSystemPods(PodsOn(pods, name)), podsByNode[name]);
      if !ok { return false; }
      left := left - {name};
    }
    return true;
  }

  method CheckInterPodAffinity(combs: seq<Combination>, pods: seq<Pod>) returns (kept: seq<Combination>)
    ensures kept == Kept(combs, c => AffinityHolds(c, pods))
  {
    ghost var keep := c => AffinityHolds(c, pods);
    kept := [];
    for i := 0 to |combs|
      invariant kept == Kept(combs[..i], keep)
    {
      var valid := AffinityOfCombination(combs[i], pods);
      KeptStep(combs, keep, i);
      if valid { kept := kept + [combs[i]]; }
    }
    assert combs[..|combs|] == combs;
  }

  // ---------------------------------------------------------------- topology spread

  /** No hard constraint of a moved pod is exceeded once the plan is carried out. */
  ghost predicate SpreadHolds(comb: Combination, cluster: Cluster) {
    forall i :: 0 <= i < |comb| ==> PodSpreadHolds(comb, comb[i].pod, cluster)
  }

  ghost predicate PodSpreadHolds(comb: Combination, pod: Pod, cluster: Cluster) {
    forall j :: 0 <= j < |pod.spread| && pod.spread[j].hard ==>
      SkewOf(Counts(comb, cluster.nodes, cluster.pods, pod.spread[j])) <= pod.spread[j].maxSkew
  }

  method PodWithinSpread(comb: Combination, pod: Pod, cluster: Cluster) returns (ok: bool)
    ensures ok == PodSpreadHolds(comb, pod, cluster)
  {
    hide Counts, IsSkewOf;
    for j := 0 to |pod.spread|
      invariant forall q :: 0 <= q < j && pod.spread[q].hard ==>
        SkewOf(Counts(comb, cluster.nodes, cluster.pods, pod.spread[q])) <= pod.spread[q].maxSkew
    {
      var c := pod.spread[j];
      if c.hard {
        var skew := CalculateRealSkew(comb, cluster.nodes, cluster.pods, c);
        SkewIsUnique(Counts(comb, cluster.nodes, cluster.pods, c), skew,
          SkewOf(Counts(comb, cluster.nodes, cluster.pods, c)));
        if skew > c.maxSkew { return false; }
      }
    }
    return true;
  }

  method CheckTopologySpreadConstraints(combs: seq<Combination>, cluster: Cluster) returns (kept: seq<Combination>)
    ensures kept == Kept(combs, c => SpreadHolds(c, cluster))
  {
    hide PodSpreadHolds;
    ghost var keep := c => SpreadHolds(c, cluster);
    kept := [];
    for i := 0 to |combs|
      invariant kept == Kept(combs[..i], keep)
    {
      var comb, valid := combs[i], true;
      for k := 0 to |comb|
        invariant valid <==> forall q :: 0 <= q < k ==> PodSpreadHolds(comb, comb[q].pod, cluster)
      {
        var ok := PodWithinSpread(comb, comb[k].pod, cluster);
        if !ok { valid := false; }
      }
      KeptStep(combs, keep, i);
      if valid { kept := kept + [comb]; }
    }
    assert combs[..|combs|] == combs;
  }

  lemma KeptSingleton(comb: Combination, keep: Combination -> bool)
    ensures Kept([comb], keep) == if keep(comb) then [comb] else []
  {
    assert [comb][..0] == [];
  }

  /** Exactly the listed combinations that pass are kept. */
  lemma {:induction false} KeptIff(combs: seq<Combination>, keep: Combination -> bool, comb: Combination)
    ensures comb in Kept(combs, keep) <==> comb in combs && keep(comb)
    decreases |combs|
  {
    if combs != [] {
      var n := |combs| - 1;
      KeptIff(combs[..n], keep, comb);
      assert combs == combs[..n] + [combs[n]];
    }
  }

  // ---------------------------------------------------------------- what the filters ask

  lemma {:induction false} PlacedOnIsFiltered(comb: Combination, name: string, p: Assignment -> bool,
                                              f: Assignment -> Pod, n: nat)
    requires n <= |comb|
    requires forall a :: p(a) <==> a.node.name == name
    requires forall a :: f(a) == a.pod
    ensures IsFiltered(PlacedOn(comb, name, n), comb[..n], p, f)
  {
    if n == 0 {
      FilteredEmpty(p, f);
    } else {
      PlacedOnIsFiltered(comb, name, p, f, n - 1);
      assert comb[..n][..n - 1] == comb[..n - 1];
      hide IsFiltered;
      FilteredLast(PlacedOn(comb, name, n), PlacedOn(comb, name, n - 1), comb[..n], p, f);
    }
  }

  /** The places in the combination of the pods sent to a node. */
  lemma PlacesOn(comb: Combination, name: string) returns (at: seq<nat>)
    ensures |at| == |PlacedOn(comb, name, |comb|)| && forall i, j :: 0 <= i < j < |at| ==> at[i] < at[j]
    ensures forall k :: 0 <= k < |at| ==>
              at[k] < |comb| && comb[at[k]].node.name == name && PlacedOn(comb, name, |comb|)[k] == comb[at[k]].pod
    ensures forall i :: 0 <= i < |comb| && comb[i].node.name == name ==> i in at
  {
    var p, f := (a: Assignment) => a.node.name == name, (a: Assignment) => a.pod;
    PlacedOnIsFiltered(comb, name, p, f, |comb|);
    assert comb[..|comb|] == comb;
    at :| IsFilteredAt(PlacedOn(comb, name, |comb|), comb, p, f, at);
  }

  lemma {:induction false} ResidentsAre(pods: seq<Pod>, name: string, q: Pod)
    ensures q in WithoutSystemPods(PodsOn(pods, name)) <==> q in pods && q.nodeName == name && !IsSystemPod(q)
  {
    hide IsSystemPod;
    if pods != [] {
      ResidentsAre(pods[1..], name, q);
      assert pods == [pods[0]] + pods[1..];
      if pods[0].nodeName == name {
        assert PodsOn(pods, name)[1..] == PodsOn(pods[1..], name);
      } else {
        assert PodsOn(pods, name) == PodsOn(pods[1..], name);
      }
    }
  }

  /** A pod that the combination moves gets on with everyone it meets: the residents that are no system
      pods, and the other pods it sends there. */
  ghost predicate GetsOn(comb: Combination, pods: seq<Pod>, i: nat)
    requires i < |comb|
  {
    && (forall q :: q in pods && q.nodeName == comb[i].node.name && !IsSystemPod(q) ==> Compatible(comb[i].pod, q))
    && forall j :: 0 <= j < |comb| && j != i && comb[j].node.name == comb[i].node.name ==>
         Compatible(comb[i].pod, comb[j].pod)
  }

  lemma AffinityOfPlaced(comb: Combination, pods: seq<Pod>, i: nat)
    requires i < |comb| && AffinityHoldsOn(comb, pods, comb[i].node.name)
    ensures GetsOn(comb, pods, i)
  {
    var name := comb[i].node.name;
    var at := PlacesOn(comb, name);
    var residents, arrivals := WithoutSystemPods(PodsOn(pods, name)), PlacedOn(comb, name, |comb|);
    hide IsSystemPod, PairAllowed, PlacedOn;
    var x :| 0 <= x < |at| && at[x] == i;
    forall q | q in pods && q.nodeName == name && !IsSystemPod(q) ensures Compatible(comb[i].pod, q) {
      ResidentsAre(pods, name, q);
      var j :| 0 <= j < |residents| && residents[j] == q;
      assert Compatible(arrivals[x], residents[j]);
    }
    forall j | 0 <= j < |comb| && j != i && comb[j].node.name == name ensures Compatible(comb[i].pod, comb[j].pod) {
      var y :| 0 <= y < |at| && at[y] == j;
      assert x < y ==> Compatible(arrivals[x], arrivals[y]);
      assert y < x ==> Compatible(arrivals[y], arrivals[x]);
    }
  }

  lemma PlacedHaveAffinity(comb: Combination, pods: seq<Pod>, name: string)
    requires forall i :: 0 <= i < |comb| ==> GetsOn(comb, pods, i)
    ensures AffinityHoldsOn(comb, pods, name)
  {
    var at := PlacesOn(comb, name);
    var residents, arrivals := WithoutSystemPods(PodsOn(pods, name)), PlacedOn(comb, name, |comb|);
    hide IsSystemPod, PairAllowed, PlacedOn, Compatible;
    forall x, j | 0 <= x < |arrivals| && 0 <= j < |residents| ensures Compatible(arrivals[x], residents[j]) {
      ResidentsAre(pods, name, residents[j]);
      assert GetsOn(comb, pods, at[x]);
    }
    forall x, y | 0 <= x < y < |arrivals| ensures Compatible(arrivals[x], arrivals[y]) {
      assert GetsOn(comb, pods, at[x]) && at[x] < at[y];
    }
  }

  /** The pod affinity filter asks that every pod of the combination gets on with everyone it meets. */
  lemma {:induction false} AffinityHoldsIff(comb: Combination, pods: seq<Pod>)
    ensures AffinityHolds(comb, pods) <==> forall i :: 0 <= i < |comb| ==> GetsOn(comb, pods, i)
  {
    hide GetsOn, AffinityHoldsOn;
    forall i | 0 <= i < |comb| && AffinityHoldsOn(comb, pods, comb[i].node.name) { AffinityOfPlaced(comb, pods, i); }
    if forall i :: 0 <= i < |comb| ==> GetsOn(comb, pods, i) {
      forall i | 0 <= i < |comb| { PlacedHaveAffinity(comb, pods, comb[i].node.name); }
    }
  }

  // ---------------------------------------------------------------- all filters in turn

  ghost predicate PassesAll(comb: Combination, cluster: Cluster) {
    && FitsBare(comb) && NodeAffinityMatched(comb) && TaintsTolerated(comb)
    && AffinityHolds(comb, cluster.pods) && SpreadHolds(comb, cluster)
  }

  /** A hard constraint whose skew, once the combination is carried out, is within its bound, or a soft one. */
  ghost predicate StaysWithin(comb: Combination, cluster: Cluster, c: SpreadConstraint) {
    c.hard ==> forall skew :: IsSkewOf(Counts(comb, cluster.nodes, cluster.pods, c), skew) ==> skew <= c.maxSkew
  }

  /** All five filters together: the app requests of the pods sent to a node fit it, every pod suits its node
      and gets on with everyone it meets, and no hard constraint's skew exceeds its bound. */
  lemma {:induction false} PassesAllIff(comb: Combination, cluster: Cluster)
    requires NamesAreNodes(comb)
    ensures PassesAll(comb, cluster) <==>
            forall i :: 0 <= i < |comb| ==>
              && FitsTogether(comb, comb[i].node.name, comb[i].node.allocatable)
              && ToleratesTaints(comb[i].pod, comb[i].node) && MatchesNodeAffinity(comb[i].pod, comb[i].node)
              && GetsOn(comb, cluster.pods, i)
              && forall j :: 0 <= j < |comb[i].pod.spread| ==> StaysWithin(comb, cluster, comb[i].pod.spread[j])
  {
    FitsIffTogether(comb);
    AffinityHoldsIff(comb, cluster.pods);
    hide FitsBare, FitsTogether, AffinityHolds, GetsOn, ToleratesTaints, MatchesNodeAffinity, PodSpreadHolds,
         NamesAreNodes;
    forall i | 0 <= i < |comb| { SpreadMeans(comb, comb[i].pod, cluster); }
  }

  lemma SpreadMeans(comb: Combination, pod: Pod, cluster: Cluster)
    ensures PodSpreadHolds(comb, pod, cluster) <==>
            forall j :: 0 <= j < |pod.spread| ==> StaysWithin(comb, cluster, pod.spread[j])
  {
    hide IsSkewOf, Counts;
    forall j, skew | 0 <= j < |pod.spread|
                     && IsSkewOf(Counts(comb, cluster.nodes, cluster.pods, pod.spread[j]), skew)
      ensures skew == SkewOf(Counts(comb, cluster.nodes, cluster.pods, pod.spread[j]))
    {
      SkewIsUnique(Counts(comb, cluster.nodes, cluster.pods, pod.spread[j]), skew,
        SkewOf(Counts(comb, cluster.nodes, cluster.pods, pod.spread[j])));
    }
  }

  /** Each filter looks at what the one before has kept. */
  ghost function Survivors(combs: seq<Combination>, cluster: Cluster): seq<Combination> {
    var fitting := Kept(combs, c => FitsBare(c));
    var matching := Kept(fitting, c => NodeAffinityMatched(c));
    var tolerating := Kept(matching, c => TaintsTolerated(c));
    var sociable := Kept(tolerating, c => AffinityHolds(c, cluster.pods));
    Kept(sociable, c => SpreadHolds(c, cluster))
  }

  /** The chain of filters loses nothing that passes each of them, and keeps nothing else. */
  lemma {:induction false} SurvivorsIff(combs: seq<Combination>, cluster: Cluster, comb: Combination)
    ensures comb in Survivors(combs, cluster) <==> comb in combs && PassesAll(comb, cluster)
  {
    hide Kept, FitsBare, NodeAffinityMatched, TaintsTolerated, AffinityHolds, SpreadHolds;
    var fitting := Kept(combs, c => FitsBare(c));
    var matching := Kept(fitting, c => NodeAffinityMatched(c));
    var tolerating := Kept(matching, c => TaintsTolerated(c));
    var sociable := Kept(tolerating, c => AffinityHolds(c, cluster.pods));
    KeptIff(combs, c => FitsBare(c), comb);
    KeptIff(fitting, c => NodeAffinityMatched(c), comb);
    KeptIff(matching, c => TaintsTolerated(c), comb);
    KeptIff(tolerating, c => AffinityHolds(c, cluster.pods), comb);
    KeptIff(sociable, c => SpreadHolds(c, cluster), comb);
  }
}
