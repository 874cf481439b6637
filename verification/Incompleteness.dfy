/** Inputs for which the planner returns no plan although there is one. A pod takes the node that a later
    one cannot do without, or the node where it breaks a spread constraint that no score looks at. */
module Incompleteness {
  import opened Options
  import opened Kube
  import opened PodRequests
  import opened Scoring
  import opened Ordering
  import opened Placement
  import opened Skew
  import opened TopologyScore
  import opened Filters
  import opened Slack
  import opened Migration
  import opened Completeness
  import Selection

  /** No pods on the candidates. */
  ghost predicate AreVacant(cluster: Cluster, candidates: seq<Node>) {
    forall i :: 0 <= i < |candidates| ==> PodsOn(cluster.pods, candidates[i].name) == []
  }

  /** The pod goes to either node, and the scores put a at least as high as b. */
  ghost predicate PrefersFirst(a: Node, b: Node, p: Pod) {
    var r := EffectiveRequests(p);
    && a.name != b.name && HasCapacity(a) && HasCapacity(b)
    && ToleratesTaints(p, a) && ToleratesTaints(p, b) && MatchesNodeAffinity(p, a) && MatchesNodeAffinity(p, b)
    && a.allocatable.Fits(r) && b.allocatable.Fits(r)
    && NodeAffinityWeight(p, a, |p.preferredNodeAffinity|) >= NodeAffinityWeight(p, b, |p.preferredNodeAffinity|)
    && Scarcest(r, a, a.allocatable) >= Scarcest(r, b, b.allocatable)
  }

  /** The pod q, placed after p, may only go to a, which cannot hold both. */
  ghost predicate IsTrap(a: Node, b: Node, p: Pod, q: Pod) {
    var rp, rq := EffectiveRequests(p), EffectiveRequests(q);
    && PrefersFirst(a, b, p) && !Before(q, p, true) && p.spread == [] && q.spread == []
    && ToleratesTaints(q, a) && MatchesNodeAffinity(q, a) && !MatchesNodeAffinity(q, b)
    && a.allocatable.Fits(rq) && !a.allocatable.Minus(rp).Fits(rq)
  }

  lemma OrderIs(p: Pod, q: Pod)
    requires !Before(q, p, true)
    ensures Ordered([p, q]) == [p, q]
  {
    hide Before;
    assert [p, q][1..] == [q] && [q][1..] == [];
    assert OrderForPlacement([q], true) == [q];
  }

  lemma FreeIs(cluster: Cluster, node: Node)
    requires PodsOn(cluster.pods, node.name) == []
    ensures Free(cluster, node) == node.allocatable && Residents(cluster, node) == []
  {
  }

  lemma NothingMoved(name: string)
    ensures RequestedOn([], name, 0) == Requests(0, 0) && PlacedOn([], name, 0) == []
  {
  }

  /** An empty node admits a pod that fits it. */
  lemma FirstIsAdmitted(cluster: Cluster, node: Node, p: Pod)
    requires PodsOn(cluster.pods, node.name) == []
    requires ToleratesTaints(p, node) && MatchesNodeAffinity(p, node) && node.allocatable.Fits(EffectiveRequests(p))
    ensures Admits(node, p, cluster, [], 0)
  {
    FreeIs(cluster, node);
    NothingMoved(node.name);
    hide EffectiveRequests, Free, Residents, RequestedOn, PlacedOn, ToleratesTaints, MatchesNodeAffinity;
  }

  lemma MapsAre(cluster: Cluster, candidates: seq<Node>, c: nat)
    requires AreVacant(cluster, candidates) && DistinctNames(candidates) && c < |candidates|
    ensures LookupFree(FreeMap(cluster, candidates, |candidates|), candidates[c].name) == candidates[c].allocatable
    ensures Lookup(ResidentMap(cluster, candidates, |candidates|), candidates[c].name) == []
  {
    FreeIs(cluster, candidates[c]);
    hide FreeMap, ResidentMap, Free, DistinctNames;
    MapsOf(cluster, candidates, c, |candidates|);
  }

  lemma NoOccupants(name: string, resident: map<string, seq<Pod>>)
    requires Lookup(resident, name) == []
    ensures Occupants(name, resident, map[]) == []
  {
  }

  lemma NoScore(p: Pod, node: Node, other: Node)
    ensures OccupantsScore(p, node, other, [], 0) == 0
  {
  }

  lemma {:induction false} NobodyThere(cluster: Cluster, candidates: seq<Node>, p: Pod, node: Node, n: nat)
    requires AreVacant(cluster, candidates) && DistinctNames(candidates) && n <= |candidates|
    ensures InterPodScore(p, node, candidates, ResidentMap(cluster, candidates, |candidates|), map[], n) == 0
  {
    hide AreVacant, FreeMap, ResidentMap, DistinctNames, OccupantsScore, Occupants;
    if n > 0 {
      NobodyThere(cluster, candidates, p, node, n - 1);
      MapsAre(cluster, candidates, n - 1);
      NoOccupants(candidates[n - 1].name, ResidentMap(cluster, candidates, |candidates|));
      NoScore(p, node, candidates[n - 1]);
    }
  }

  // ---------------------------------------------------------------- the first pod

  lemma FirstNodeOffersMore(cluster: Cluster, a: Node, b: Node, p: Pod, candidates: seq<Node>)
    requires PrefersFirst(a, b, p) && candidates == [a, b] && DistinctNames(candidates)
    requires AreVacant(cluster, candidates)
    ensures OffersAtLeast(p, EffectiveRequests(p), a, b, candidates, FreeMap(cluster, candidates, 2),
                          ResidentMap(cluster, candidates, 2), map[])
  {
    hide AreVacant, EffectiveRequests, InterPodScore, FreeMap, ResidentMap, Scarcest, ToleratesTaints,
         MatchesNodeAffinity, DistinctNames, NodeAffinityWeight;
    NobodyThere(cluster, candidates, p, a, 2);
    NobodyThere(cluster, candidates, p, b, 2);
    MapsAre(cluster, candidates, 0);
    MapsAre(cluster, candidates, 1);
  }

  lemma BothAdmissible(cluster: Cluster, a: Node, b: Node, p: Pod, candidates: seq<Node>,
                       free: map<string, Resources>, resident: map<string, seq<Pod>>)
    requires PrefersFirst(a, b, p) && candidates == [a, b] && DistinctNames(candidates)
    requires AreVacant(cluster, candidates)
    requires free == FreeMap(cluster, candidates, 2) && resident == ResidentMap(cluster, candidates, 2)
    ensures AdmissibleIndices(p, candidates, free, resident, map[], 2) == [0, 1]
  {
    EmptyPlan(free);
    forall c: nat | c < 2 ensures Admissible(p, EffectiveRequests(p), candidates[c], free, resident, map[]) {
      FirstIsAdmitted(cluster, candidates[c], p);
      hide EffectiveRequests, FreeMap, ResidentMap, Admissible, Admits, DistinctNames, PrefersFirst, FreeAfter,
           PlacedAfter;
      AdmissibleIsAdmits([], cluster, candidates, p, c, 0);
    }
    hide EffectiveRequests, FreeMap, ResidentMap, Admissible, PrefersFirst, DistinctNames;
    assert AdmissibleIndices(p, candidates, free, resident, map[], 1) == [0];
  }

  /** So p goes to a. */
  lemma GoesToFirst(cluster: Cluster, a: Node, b: Node, p: Pod, candidates: seq<Node>)
    requires PrefersFirst(a, b, p) && candidates == [a, b] && DistinctNames(candidates)
    requires AreVacant(cluster, candidates)
    ensures FirstChoice(cluster, candidates, p) == Some(0)
  {
    var free, resident := FreeMap(cluster, candidates, 2), ResidentMap(cluster, candidates, 2);
    BothAdmissible(cluster, a, b, p, candidates, free, resident);
    FirstNodeOffersMore(cluster, a, b, p, candidates);
    hide AreVacant, EffectiveRequests, FreeMap, ResidentMap, AdmissibleIndices, OffersAtLeast, Scores, PrefersFirst,
         DistinctNames, FirstMax;
    var r := EffectiveRequests(p);
    var both: seq<nat> := [0, 1];
    BetterCandidateScoresHigher(p, r, candidates, both, free, resident, map[], 0, 1);
    FirstOfTwo(Scores(p, r, candidates, both, free, resident, map[]));
  }

  lemma FirstOfTwo(scores: seq<real>)
    requires |scores| == 2 && scores[0] >= scores[1]
    ensures FirstMax(scores, 2) == 0
  {
    assert FirstMax(scores, 1) == 0;
  }

  // ---------------------------------------------------------------- the trap

  /** After which no node admits q. */
  lemma SecondIsNotAdmitted(cluster: Cluster, a: Node, b: Node, p: Pod, q: Pod, node: Node, plan: Combination)
    requires IsTrap(a, b, p, q) && (node == a || node == b) && plan == [Assignment(p, a, None)]
    requires PodsOn(cluster.pods, a.name) == []
    ensures !Admits(node, q, cluster, plan, 1)
  {
    FreeIs(cluster, a);
    hide EffectiveRequests, Free, Residents, PlacedOn, ToleratesTaints, MatchesNodeAffinity, AffinityOnNode, Scarcest,
         NodeAffinityWeight, Before;
    if node == a {
      assert RequestedOn(plan, a.name, 0) == Requests(0, 0);
      assert RequestedOn(plan, a.name, 1) == EffectiveRequests(p);
    }
  }

  lemma NoSecondChoice(cluster: Cluster, a: Node, b: Node, p: Pod, q: Pod, candidates: seq<Node>,
                       free: map<string, Resources>, resident: map<string, seq<Pod>>, plan: Combination)
    requires IsTrap(a, b, p, q) && candidates == [a, b] && DistinctNames(candidates) && plan == [Assignment(p, a, None)]
    requires AreVacant(cluster, candidates)
    requires free == FreeMap(cluster, candidates, 2) && resident == ResidentMap(cluster, candidates, 2)
    ensures Choice(q, candidates, FreeAfter(free, plan, 1), resident, PlacedAfter(plan, 1)) == None
  {
    var left, placed := FreeAfter(free, plan, 1), PlacedAfter(plan, 1);
    assert PodsOn(cluster.pods, candidates[0].name) == [];
    hide Choice, FreeMap, ResidentMap, FreeAfter, PlacedAfter, Admissible, Admits, EffectiveRequests, DistinctNames,
         IsTrap, AreVacant;
    ChoiceIsAdmissible(q, candidates, left, resident, placed);
    forall c: nat | c < 2 ensures !Admissible(q, EffectiveRequests(q), candidates[c], left, resident, placed) {
      SecondIsNotAdmitted(cluster, a, b, p, q, candidates[c], plan);
      AdmissibleIsAdmits(plan, cluster, candidates, q, c, 1);
    }
  }

  lemma FirstStepIsGreedy(cluster: Cluster, a: Node, b: Node, p: Pod, ordered: seq<Pod>, candidates: seq<Node>,
                          free: map<string, Resources>, resident: map<string, seq<Pod>>)
    requires PrefersFirst(a, b, p) && candidates == [a, b] && DistinctNames(candidates)
    requires AreVacant(cluster, candidates)
    requires free == FreeMap(cluster, candidates, 2) && resident == ResidentMap(cluster, candidates, 2)
    requires ordered != [] && ordered[0] == p
    ensures IsGreedy(ordered, candidates, free, resident, [Assignment(p, a, None)])
  {
    var step := Assignment(p, a, None);
    GoesToFirst(cluster, a, b, p, candidates);
    EmptyPlan(free);
    assert [] + [step] == [step];
    hide PrefersFirst, AreVacant, DistinctNames, FreeMap, ResidentMap, Choice, FreeAfter, PlacedAfter;
    ChoiceExtends(ordered, candidates, free, resident, [], step);
  }

  lemma TrapBlocks(cluster: Cluster, a: Node, b: Node, p: Pod, q: Pod, candidates: seq<Node>)
    requires IsTrap(a, b, p, q) && candidates == [a, b] && DistinctNames(candidates)
    requires AreVacant(cluster, candidates)
    ensures IsBlocked(cluster, candidates, [p, q], true)
  {
    var ordered, plan := [p, q], [Assignment(p, a, None)];
    var free, resident := FreeMap(cluster, candidates, 2), ResidentMap(cluster, candidates, 2);
    OrderIs(p, q);
    hide PrefersFirst, Before, MatchesNodeAffinity, ToleratesTaints, EffectiveRequests;
    FirstStepIsGreedy(cluster, a, b, p, ordered, candidates, free, resident);
    NoSecondChoice(cluster, a, b, p, q, candidates, free, resident, plan);
    hide IsTrap, Choice, FreeMap, ResidentMap, OrderForPlacement, DistinctNames, AreVacant, IsGreedy, FreeAfter,
         PlacedAfter;
    assert IsStuck(ordered, candidates, free, resident, plan);
  }

  lemma MissedIsKept(cluster: Cluster, a: Node, b: Node, p: Pod, q: Pod, missed: Combination, i: nat)
    requires IsTrap(a, b, p, q) && missed == [Assignment(p, b, None), Assignment(q, a, None)] && i < 2
    requires PodsOn(cluster.pods, missed[i].node.name) == []
    ensures IsKept(missed, i, cluster)
  {
    var node, pod := missed[i].node, missed[i].pod;
    FreeIs(cluster, node);
    hide EffectiveRequests, Free, Residents, ToleratesTaints, MatchesNodeAffinity, Scarcest, NodeAffinityWeight, Before,
         Compatible;
    assert RequestedOn(missed, node.name, 0) == Requests(0, 0) && PlacedOn(missed, node.name, 0) == [];
    assert RequestedOn(missed, node.name, 1) == if i == 0 then EffectiveRequests(p) else Requests(0, 0);
    assert PlacedOn(missed, node.name, 1) == if i == 0 then [p] else [];
    assert RequestedOn(missed, node.name, 2) == EffectiveRequests(pod);
    assert PlacedOn(missed, node.name, 2) == [pod];
  }

  lemma MissedIsFeasible(cluster: Cluster, a: Node, b: Node, p: Pod, q: Pod, candidates: seq<Node>, missed: Combination)
    requires IsTrap(a, b, p, q) && candidates == [a, b] && AreVacant(cluster, candidates)
    requires missed == [Assignment(p, b, None), Assignment(q, a, None)]
    ensures IsFeasible(missed, cluster, candidates, [p, q])
  {
    OrderIs(p, q);
    assert missed[0].node == candidates[1] && missed[1].node == candidates[0];
    MissedIsKept(cluster, a, b, p, q, missed, 0);
    MissedIsKept(cluster, a, b, p, q, missed, 1);
    assert p.spread == [] && q.spread == [];
    hide IsTrap, IsKept, Ordered, Counts, SkewOf;
    assert PodSpreadHolds(missed, p, cluster) && PodSpreadHolds(missed, q, cluster);
    hide PodSpreadHolds;
    assert SpreadHolds(missed, cluster);
  }

  /** The planner gives up on every such pair of pods, although a plan exists that satisfies every hard
      constraint. */
  lemma {:induction false} TrapIsMissed(cluster: Cluster, a: Node, b: Node, p: Pod, q: Pod, candidates: seq<Node>)
    requires IsTrap(a, b, p, q) && candidates == [a, b] && AreVacant(cluster, candidates)
    ensures IsBlocked(cluster, candidates, [p, q], true)
    ensures !ReturnsPlan(cluster, candidates, [p, q]) && HasFeasible(cluster, candidates, [p, q])
  {
    assert DistinctNames(candidates);
    hide IsTrap, FindsPlan, IsBlocked, IsFeasible, DistinctNames, AreVacant;
    TrapBlocks(cluster, a, b, p, q, candidates);
    BlockedFindsNone(cluster, candidates, [p, q]);
    MissedIsFeasible(cluster, a, b, p, q, candidates, [Assignment(p, b, None), Assignment(q, a, None)]);
  }

  // ---------------------------------------------------------------- the spread that no score looks at

  /** On b the pod keeps its spread, on a it does not. */
  ghost predicate IsLopsided(cluster: Cluster, a: Node, b: Node, p: Pod) {
    PrefersFirst(a, b, p) && !KeepsSpread(p, a, cluster) && KeepsSpread(p, b, cluster)
  }

  lemma FitsIsSuits(cluster: Cluster, node: Node, p: Pod)
    requires PodsOn(cluster.pods, node.name) == []
    requires ToleratesTaints(p, node) && MatchesNodeAffinity(p, node) && node.allocatable.Fits(EffectiveRequests(p))
    ensures Suits(p, node, cluster)
  {
    FirstIsAdmitted(cluster, node, p);
    SuitsIsAdmitted(p, node, cluster);
    hide Admits, Suits;
  }

  /** The scores send the pod to a, the spread check at the end rejects that, and b is never tried. */
  lemma {:induction false} LopsidedIsMissed(cluster: Cluster, a: Node, b: Node, p: Pod, candidates: seq<Node>)
    requires IsLopsided(cluster, a, b, p) && candidates == [a, b] && AreVacant(cluster, candidates)
    ensures !ReturnsPlan(cluster, candidates, [p]) && HasFeasible(cluster, candidates, [p])
  {
    assert DistinctNames(candidates);
    GoesToFirst(cluster, a, b, p, candidates);
    OnePodIsComplete(cluster, candidates, p);
    assert PodsOn(cluster.pods, candidates[1].name) == [];
    FitsIsSuits(cluster, b, p);
    hide ReturnsPlan, HasFeasible, Suits, KeepsSpread, PrefersFirst, DistinctNames, AreVacant, FirstChoice;
    assert b in candidates;
    assert HasSpreadingNode(cluster, candidates, p);
  }

  // ---------------------------------------------------------------- inputs

  lemma RequestsAre(pod: Pod)
    requires pod.containers == [Requests(2000, 0)] && pod.initContainers == []
    ensures EffectiveRequests(pod) == Requests(2000, 0)
  {
    assert Total(AppCpu(pod), 0) == 0 && Total(AppMemory(pod), 0) == 0;
    assert Total(AppCpu(pod), 1) == 2000 && Total(AppMemory(pod), 1) == 0;
  }

  /** A pod of two cores that runs on a node to be drained. */
  function TwoCores(name: string, nodeName: string): Pod {
    Pod("shop", name, map["app" := "web"], nodeName, Running, [Requests(2000, 0)], [], [], None, [], [], [], [], [], [])
  }

  lemma OnlyOn(pods: seq<Pod>, name: string)
    requires |pods| == 2 && pods[0].nodeName != name && pods[1].nodeName != name
    ensures PodsOn(pods, name) == []
  {
    assert PodsOn(pods[1..][1..], name) == [];
  }

  /** Two pods of two cores each, the second tied to a disk that only the roomier of two nodes has. They
      are what is to be moved off d, and a and b are the nodes they may be moved to. */
  lemma {:induction false} TrapExists(stays: Pod -> bool) returns (cluster: Cluster, a: Node, b: Node, d: Node,
                                                                  p: Pod, q: Pod)
    requires forall pod: Pod :: !stays(pod)
    ensures IsTrap(a, b, p, q) && AreVacant(cluster, [a, b])
    ensures cluster.nodes == [a, b, d] && cluster.pods == [p, q]
    ensures Selection.Destinations(cluster.nodes, d.name) == [a, b]
    ensures Selection.Migratable(cluster.pods, d.name, stays) == [p, q]
  {
    a := Node("a", map["disk" := "ssd"], [], Resources(3000, 100));
    b := Node("b", map[], [], Resources(2000, 100));
    d := Node("d", map["disk" := "ssd"], [], Resources(4000, 100));
    p := TwoCores("any", "d");
    q := TwoCores("disk", "d").(requiredNodeAffinity := Some([[NodeRequirement("disk", In, ["ssd"])]]));
    cluster := Cluster([a, b, d], [p, q]);
    TwoCoresTrap(a, b, p, q);
    assert p.namespace == q.namespace == "shop" && p.phase == q.phase == Running && p.nodeName == q.nodeName == "d";
    hide TwoCores, IsTrap, PodsOn, Selection.Destinations, Selection.Migratable;
    BothOnlyOn([p, q], a, b, d, stays);
    assert AreVacant(cluster, [a, b]);
  }

  /** Nobody is on a or b, and both pods are to be moved off d. */
  lemma BothOnlyOn(pods: seq<Pod>, a: Node, b: Node, d: Node, stays: Pod -> bool)
    requires |pods| == 2 && !stays(pods[0]) && !stays(pods[1])
    requires pods[0].namespace == pods[1].namespace == "shop" && pods[0].phase == pods[1].phase == Running
    requires pods[0].nodeName == pods[1].nodeName == d.name == "d" && a.name == "a" && b.name == "b"
    ensures PodsOn(pods, a.name) == [] && PodsOn(pods, b.name) == []
    ensures Selection.Destinations([a, b, d], d.name) == [a, b]
    ensures Selection.Migratable(pods, d.name, stays) == pods
  {
    NamesDiffer();
    OnlyOn(pods, "a");
    OnlyOn(pods, "b");
    DestinationsAre(a, b, d);
    assert pods == [pods[0], pods[1]];
    BothMigrate(pods[0], pods[1], stays);
    hide PodsOn, Selection.Destinations, Selection.Migratable;
  }

  lemma TwoCoresTrap(a: Node, b: Node, p: Pod, q: Pod)
    requires a == Node("a", map["disk" := "ssd"], [], Resources(3000, 100))
    requires b == Node("b", map[], [], Resources(2000, 100))
    requires p == TwoCores("any", "d")
    requires q == TwoCores("disk", "d").(requiredNodeAffinity := Some([[NodeRequirement("disk", In, ["ssd"])]]))
    ensures IsTrap(a, b, p, q)
  {
    var ssd := NodeRequirement("disk", In, ["ssd"]);
    RequestsAre(p);
    RequestsAre(q);
    hide EffectiveRequests, Scarcest;
    assert a.name != b.name by { assert a.name[0] != b.name[0]; }
    assert MatchesTerm([ssd], a.labels) by { assert "ssd" in ["ssd"]; }
    assert [ssd] in q.requiredNodeAffinity.value;
    assert !MatchesRequirement(ssd, b.labels);
    ScarcestOfBoth(a, b);
  }

  lemma DestinationsAre(a: Node, b: Node, d: Node)
    requires a.name != d.name && b.name != d.name
    ensures Selection.Destinations([a, b, d], d.name) == [a, b]
  {
    assert [a, b, d][..2] == [a, b] && [a, b][..1] == [a] && [a][..0] == [];
    assert Selection.Destinations([a], d.name) == [a];
    assert Selection.Destinations([a, b], d.name) == [a, b];
  }

  /** A pod of a namespace that is not reserved. */
  lemma ShopMigrates(p: Pod, stays: Pod -> bool)
    requires p.namespace == "shop" && p.phase == Running && !stays(p)
    ensures Selection.IsMigratable(p, stays)
  {
    assert p.namespace[0] == 's' && "monitoring"[0] == 'm' && "kube"[0] == 'k';
  }

  lemma BothMigrate(p: Pod, q: Pod, stays: Pod -> bool)
    requires p.namespace == q.namespace == "shop" && p.phase == q.phase == Running && p.nodeName == q.nodeName
    requires !stays(p) && !stays(q)
    ensures Selection.Migratable([p, q], p.nodeName, stays) == [p, q]
  {
    ShopMigrates(p, stays);
    ShopMigrates(q, stays);
    hide Selection.IsMigratable;
    assert [p, q][..1] == [p] && [p][..0] == [];
    assert Selection.Migratable([p], p.nodeName, stays) == [p];
  }

  lemma ScarcestOfBoth(a: Node, b: Node)
    requires a.allocatable == Resources(3000, 100) && b.allocatable == Resources(2000, 100)
    ensures Scarcest(Requests(2000, 0), a, a.allocatable) >= 0.0 == Scarcest(Requests(2000, 0), b, b.allocatable)
  {
    assert FreeFraction(2000, 2000, 2000) == 0.0;
    assert FreeFraction(100, 0, 100) == 1.0;
  }

  // ---------------------------------------------------------------- an input for the spread

  function ZoneSpread(): SpreadConstraint {
    SpreadConstraint("zone", true, 1, Some(LabelSelector("app=web", labels => true)), "app=web")
  }

  /** Four nodes in two zones: two to move to, one cordoned, one to be drained. */
  function TwoZones(): seq<Node> {
    [Node("a", map["zone" := "x"], [], Resources(3000, 100)), Node("b", map["zone" := "y"], [], Resources(2000, 100)),
     Node("d", map["zone" := "x"], [], Resources(3000, 100)), Node("e", map["zone" := "x"], [], Resources(3000, 100))]
  }

  lemma NamesDiffer()
    ensures "a" != "b" && "a" != "d" && "a" != "e" && "b" != "d" && "b" != "e" && "d" != "e" && "x" != "y"
  {
    assert "a"[0] == 'a' && "b"[0] == 'b' && "d"[0] == 'd' && "e"[0] == 'e' && "x"[0] == 'x' && "y"[0] == 'y';
  }

  lemma ZonesAre()
    ensures ZoneMap(TwoZones(), "zone", 4) == map["a" := "x", "b" := "y", "d" := "x", "e" := "x"]
    ensures Zones(TwoZones(), "zone", 4) == {"x", "y"}
  {
    NamesDiffer();
    var nodes := TwoZones();
    assert ZoneMap(nodes, "zone", 1) == map["a" := "x"] && Zones(nodes, "zone", 1) == {"x"};
    assert ZoneMap(nodes, "zone", 2) == map["a" := "x", "b" := "y"] && Zones(nodes, "zone", 2) == {"x", "y"};
    assert ZoneMap(nodes, "zone", 3) == map["a" := "x", "b" := "y", "d" := "x"];
    assert Zones(nodes, "zone", 3) == {"x", "y"};
  }

  /** The pod to move, on e, and one that stays, on d. */
  function MoverAndStayer(): seq<Pod> {
    [TwoCores("mover", "e").(spread := [ZoneSpread()]), TwoCores("stayer", "d")]
  }

  lemma StayingIs(moved: set<string>, zones: map<string, string>, z: string)
    requires moved == {"mover"} && zones == map["a" := "x", "b" := "y", "d" := "x", "e" := "x"]
    ensures StaticCount(MoverAndStayer(), moved, ZoneSpread(), zones, z, 2) == if z == "x" then 1 else 0
  {
    var pods, c := MoverAndStayer(), ZoneSpread();
    NamesDiffer();
    assert "mover"[0] == 'm' && "stayer"[0] == 's';
    assert pods[0].name in moved && pods[1].name !in moved;
    assert StaticCount(pods, moved, c, zones, z, 0) == 0;
    assert StaticCount(pods, moved, c, zones, z, 1) == 0;
  }

  lemma MovedIs(plan: Combination, zones: map<string, string>, z: string)
    requires |plan| == 1 && plan[0].pod.name == "mover"
    ensures MovedNames(plan, 1) == {"mover"}
    ensures MovedCount(plan, ZoneSpread(), zones, z, 1) == if InZone(zones, plan[0].node.name, z) then 1 else 0
  {
    assert MovedNames(plan, 0) == {} && MovedCount(plan, ZoneSpread(), zones, z, 0) == 0;
  }

  lemma CountsFrom(plan: Combination, nodes: seq<Node>, pods: seq<Pod>, c: SpreadConstraint, x: nat, y: nat)
    requires Zones(nodes, c.topologyKey, |nodes|) == {"x", "y"} && "x" != "y"
    requires var zones, moved := ZoneMap(nodes, c.topologyKey, |nodes|), MovedNames(plan, |plan|);
             && StaticCount(pods, moved, c, zones, "x", |pods|) + MovedCount(plan, c, zones, "x", |plan|) == x
             && StaticCount(pods, moved, c, zones, "y", |pods|) + MovedCount(plan, c, zones, "y", |plan|) == y
    ensures Counts(plan, nodes, pods, c) == map["x" := x, "y" := y]
  {
    hide MovedNames, MovedCount, StaticCount, Zones, ZoneMap;
  }

  lemma ShapeIs()
    ensures |TwoZones()| == 4 && |MoverAndStayer()| == 2
    ensures TwoZones()[0].name == "a" && TwoZones()[1].name == "b"
    ensures MoverAndStayer()[0].name == "mover" && MoverAndStayer()[0].spread == [ZoneSpread()]
    ensures ZoneSpread().topologyKey == "zone" && ZoneSpread().hard && ZoneSpread().maxSkew == 1
  {
  }

  lemma DestinationZone(zones: map<string, string>)
    requires zones == map["a" := "x", "b" := "y", "d" := "x", "e" := "x"]
    ensures InZone(zones, "a", "x") && !InZone(zones, "a", "y") && InZone(zones, "b", "y") && !InZone(zones, "b", "x")
  {
    NamesDiffer();
  }

  /** The counts after moving the pod to zone x or to zone y. */
  lemma CountsAre(node: Node, plan: Combination)
    requires node == TwoZones()[0] || node == TwoZones()[1]
    requires plan == [Assignment(MoverAndStayer()[0], node, None)]
    ensures Counts(plan, TwoZones(), MoverAndStayer(), ZoneSpread())
         == if node.name == "a" then map["x" := 2, "y" := 0] else map["x" := 1, "y" := 1]
  {
    var nodes, pods, c := TwoZones(), MoverAndStayer(), ZoneSpread();
    var zones := ZoneMap(nodes, "zone", 4);
    ZonesAre();
    ShapeIs();
    NamesDiffer();
    hide *;
    DestinationZone(zones);
    MovedIs(plan, zones, "x");
    MovedIs(plan, zones, "y");
    StayingIs({"mover"}, zones, "x");
    StayingIs({"mover"}, zones, "y");
    if node.name == "a" {
      CountsFrom(plan, nodes, pods, c, 2, 0);
    } else {
      CountsFrom(plan, nodes, pods, c, 1, 1);
    }
  }

  lemma SkewOfTwo(counts: map<string, int>, x: nat, y: nat)
    requires counts == map["x" := x, "y" := y] && y <= x <= MAX_INT32
    ensures SkewOf(counts) == x - y
  {
    NamesDiffer();
    assert counts["x"] == x && counts["y"] == y;
    assert IsPeak(counts, x) && IsFloor(counts, y);
    SkewIsUnique(counts, SkewOf(counts), x - y);
  }

  lemma OneConstraint(p: Pod, node: Node, cluster: Cluster, plan: Combination, c: SpreadConstraint)
    requires p.spread == [c] && c.hard && plan == [Assignment(p, node, None)]
    ensures KeepsSpread(p, node, cluster) <==> SkewOf(Counts(plan, cluster.nodes, cluster.pods, c)) <= c.maxSkew
  {
    hide Counts, SkewOf;
    assert p.spread[0] == c;
  }

  lemma SpreadIsLopsided(cluster: Cluster, a: Node, b: Node, p: Pod)
    requires cluster.nodes == TwoZones() && cluster.pods == MoverAndStayer()
    requires a == TwoZones()[0] && b == TwoZones()[1] && p == MoverAndStayer()[0]
    ensures !KeepsSpread(p, a, cluster) && KeepsSpread(p, b, cluster)
  {
    NamesDiffer();
    ShapeIs();
    var toA, toB := [Assignment(p, a, None)], [Assignment(p, b, None)];
    hide Counts, SkewOf, TwoZones, MoverAndStayer, ZoneSpread, KeepsSpread;
    CountsAre(a, toA);
    CountsAre(b, toB);
    SkewOfTwo(map["x" := 2, "y" := 0], 2, 0);
    SkewOfTwo(map["x" := 1, "y" := 1], 1, 1);
    OneConstraint(p, a, cluster, toA, ZoneSpread());
    OneConstraint(p, b, cluster, toB, ZoneSpread());
  }

  lemma OneMoreIsSlack(cluster: Cluster, p: Pod)
    requires cluster == Cluster(TwoZones(), MoverAndStayer()) && p == MoverAndStayer()[0]
    ensures IsSlack(Staying(cluster, [p], ZoneSpread()), Counted([p], ZoneSpread(), 1), ZoneSpread().maxSkew + 1)
  {
    ZonesAre();
    NamesDiffer();
    assert Names([p], 0) == {} && Names([p], 1) == {"mover"};
    assert Counted([p], ZoneSpread(), 0) == 0;
    var zones := ZoneMap(TwoZones(), "zone", 4);
    StayingIs({"mover"}, zones, "x");
    StayingIs({"mover"}, zones, "y");
    hide StaticCount, ZoneMap, Zones, Names, TwoZones;
  }

  /** One pod, and room everywhere: a counted pod stays in zone x, and the roomier of the two nodes to move
      to is in zone x too. The slack falls short by no more than one. */
  lemma {:induction false} LopsidedExists(stays: Pod -> bool)
    returns (cluster: Cluster, a: Node, b: Node, e: Node, p: Pod)
    requires forall pod: Pod :: !stays(pod)
    ensures IsLopsided(cluster, a, b, p) && AreVacant(cluster, [a, b])
    ensures a in cluster.nodes && b in cluster.nodes && e in cluster.nodes
    ensures Selection.Destinations([a, b, e], e.name) == [a, b]
    ensures Selection.Migratable(cluster.pods, e.name, stays) == [p]
    ensures |p.spread| == 1 && p.spread[0].hard
    ensures IsSlack(Staying(cluster, [p], p.spread[0]), Counted([p], p.spread[0], 1), p.spread[0].maxSkew + 1)
  {
    ShapeIs();
    hide TwoZones, MoverAndStayer, ZoneSpread, PrefersFirst, KeepsSpread, Staying, Counted, IsSlack, PodsOn,
         Selection.Destinations, Selection.Migratable;
    cluster := Cluster(TwoZones(), MoverAndStayer());
    a, b, e, p := TwoZones()[0], TwoZones()[1], TwoZones()[3], MoverAndStayer()[0];
    SpreadIsLopsided(cluster, a, b, p);
    OneMoreIsSlack(cluster, p);
    MoverPrefersFirst(a, b, p);
    MoverMigrates(cluster.pods, a, b, e, p, stays);
    assert AreVacant(cluster, [a, b]);
  }

  lemma MoverPrefersFirst(a: Node, b: Node, p: Pod)
    requires a == TwoZones()[0] && b == TwoZones()[1] && p == MoverAndStayer()[0]
    ensures PrefersFirst(a, b, p)
  {
    NamesDiffer();
    RequestsAre(p);
    ScarcestOfBoth(a, b);
    hide EffectiveRequests, Scarcest;
  }

  /** The mover is all there is to move off e, and nobody is on a or b. */
  lemma MoverMigrates(pods: seq<Pod>, a: Node, b: Node, e: Node, p: Pod, stays: Pod -> bool)
    requires pods == MoverAndStayer() && p == pods[0] && !stays(p)
    requires a == TwoZones()[0] && b == TwoZones()[1] && e == TwoZones()[3]
    ensures PodsOn(pods, a.name) == [] && PodsOn(pods, b.name) == []
    ensures Selection.Destinations([a, b, e], e.name) == [a, b]
    ensures Selection.Migratable(pods, e.name, stays) == [p]
  {
    NamesDiffer();
    OnlyOn(pods, "a");
    OnlyOn(pods, "b");
    DestinationsAre(a, b, e);
    assert pods == [p, pods[1]];
    OneMigrates(p, pods[1], stays);
    hide PodsOn, Selection.Destinations, Selection.Migratable;
  }

  lemma OneMigrates(p: Pod, q: Pod, stays: Pod -> bool)
    requires p.namespace == "shop" && p.phase == Running && p.nodeName != q.nodeName && !stays(p)
    ensures Selection.Migratable([p, q], p.nodeName, stays) == [p]
  {
    var name := p.nodeName;
    ShopMigrates(p, stays);
    hide Selection.IsMigratable;
    assert [p][..0] == [];
    assert Selection.Migratable([p], name, stays) == [p];
    NotOnNode([p], q, name, stays);
    assert [p, q] == [p] + [q];
  }

  lemma NotOnNode(pods: seq<Pod>, q: Pod, name: string, stays: Pod -> bool)
    requires q.nodeName != name
    ensures Selection.Migratable(pods + [q], name, stays) == Selection.Migratable(pods, name, stays)
  {
    hide Selection.IsMigratable;
    assert (pods + [q])[..|pods|] == pods;
  }
}
