/** When no placement of the pods can break a hard spread constraint, read off the pod counts per domain
    before the move. */
module Slack {
  import opened Options
  import opened Kube
  import opened Skew
  import opened TopologyScore
  import opened Filters

  // ---------------------------------------------------------------- the counts before the move

  function Names(pods: seq<Pod>, n: nat): set<string>
    requires n <= |pods|
  {
    if n == 0 then {} else Names(pods, n - 1) + {pods[n - 1].name}
  }

  /** Pods per domain once the pods to move are gone. */
  function Staying(cluster: Cluster, pods: seq<Pod>, c: SpreadConstraint): map<string, int> {
    var zones := ZoneMap(cluster.nodes, c.topologyKey, |cluster.nodes|);
    map z | z in Zones(cluster.nodes, c.topologyKey, |cluster.nodes|) ::
      StaticCount(cluster.pods, Names(pods, |pods|), c, zones, z, |cluster.pods|)
  }

  /** How many of the first n pods the constraint counts. */
  function Counted(pods: seq<Pod>, c: SpreadConstraint, n: nat): nat
    requires n <= |pods|
  {
    if n == 0 then 0 else Counted(pods, c, n - 1) + (if Selected(c, pods[n - 1].labels) then 1 else 0)
  }

  /** Any domain can take all the moved pods without exceeding any other by more than the bound. The
      smallest count is taken to be at most MAX_INT32. */
  ghost predicate IsSlack(staying: map<string, int>, moved: nat, maxSkew: int) {
    && maxSkew >= 0
    && (forall z :: z in staying ==> staying[z] + moved <= MAX_INT32 + maxSkew)
    && (forall y, z :: y in staying && z in staying && y != z ==> staying[y] + moved <= staying[z] + maxSkew)
  }

  ghost predicate HasSlackFor(cluster: Cluster, pods: seq<Pod>, c: SpreadConstraint) {
    IsSlack(Staying(cluster, pods, c), Counted(pods, c, |pods|), c.maxSkew)
  }

  /** Slack for every hard constraint of the pods to move; so in particular without hard constraints. */
  ghost predicate HasSlack(cluster: Cluster, pods: seq<Pod>) {
    forall i, j :: 0 <= i < |pods| && 0 <= j < |pods[i].spread| && pods[i].spread[j].hard ==>
      HasSlackFor(cluster, pods, pods[i].spread[j])
  }

  // ---------------------------------------------------------------- slack is enough

  /** A plan for the pods, in this order. */
  ghost predicate Assigns(plan: Combination, candidates: seq<Node>, pods: seq<Pod>) {
    && |plan| == |pods|
    && forall i :: 0 <= i < |plan| ==> plan[i].pod == pods[i] && plan[i].node in candidates
  }

  lemma {:induction false} NamesAreMoved(plan: Combination, pods: seq<Pod>, n: nat)
    requires n <= |plan| == |pods| && forall i :: 0 <= i < |plan| ==> plan[i].pod == pods[i]
    ensures MovedNames(plan, n) == Names(pods, n)
  {
    if n > 0 { NamesAreMoved(plan, pods, n - 1); }
  }

  lemma {:induction false} MovedAtMostCounted(plan: Combination, pods: seq<Pod>, c: SpreadConstraint,
                                             zones: map<string, string>, z: string, n: nat)
    requires n <= |plan| == |pods| && forall i :: 0 <= i < |plan| ==> plan[i].pod == pods[i]
    ensures MovedCount(plan, c, zones, z, n) <= Counted(pods, c, n)
  {
    hide Selected, InZone;
    if n > 0 { MovedAtMostCounted(plan, pods, c, zones, z, n - 1); }
  }

  /** The counts after a plan: nobody leaves, and no domain gains more than the pods that count. */
  lemma CountsAfter(plan: Combination, cluster: Cluster, pods: seq<Pod>, c: SpreadConstraint)
    requires |plan| == |pods| && forall i :: 0 <= i < |plan| ==> plan[i].pod == pods[i]
    ensures var staying, after := Staying(cluster, pods, c), Counts(plan, cluster.nodes, cluster.pods, c);
            && after.Keys == staying.Keys
            && forall z :: z in staying ==>
                 0 <= staying[z] <= after[z] <= staying[z] + Counted(pods, c, |pods|)
  {
    var zones := ZoneMap(cluster.nodes, c.topologyKey, |cluster.nodes|);
    NamesAreMoved(plan, pods, |plan|);
    forall z ensures MovedCount(plan, c, zones, z, |plan|) <= Counted(pods, c, |pods|) {
      MovedAtMostCounted(plan, pods, c, zones, z, |plan|);
    }
    hide Selected, InZone, MovedCount, StaticCount, Counted, MovedNames, Names, Zones, ZoneMap;
  }

  lemma SlackBounds(staying: map<string, int>, after: map<string, int>, moved: nat, maxSkew: int, skew: int)
    requires IsSlack(staying, moved, maxSkew) && IsSkewOf(after, skew) && after.Keys == staying.Keys
    requires forall z :: z in staying ==> 0 <= staying[z] <= after[z] <= staying[z] + moved
    ensures skew <= maxSkew
  {
    if after != map[] {
      var hi, lo :| IsPeak(after, hi) && IsFloor(after, lo) && skew == hi - lo;
      if hi != 0 {
        var y :| y in after && after[y] == hi;
        if lo != MAX_INT32 { var z :| z in after && after[z] == lo; }
      }
    }
  }

  lemma {:induction false} SlackKeepsSpread(plan: Combination, cluster: Cluster, candidates: seq<Node>, pods: seq<Pod>)
    requires Assigns(plan, candidates, pods) && HasSlack(cluster, pods)
    ensures SpreadHolds(plan, cluster)
  {
    hide Counts, Counted, Staying, IsSlack, IsSkewOf;
    forall i | 0 <= i < |plan| ensures PodSpreadHolds(plan, plan[i].pod, cluster) {
      forall j | 0 <= j < |pods[i].spread| && pods[i].spread[j].hard
        ensures SkewOf(Counts(plan, cluster.nodes, cluster.pods, pods[i].spread[j])) <= pods[i].spread[j].maxSkew
      {
        var c := pods[i].spread[j];
        CountsAfter(plan, cluster, pods, c);
        var after := Counts(plan, cluster.nodes, cluster.pods, c);
        SlackBounds(Staying(cluster, pods, c), after, Counted(pods, c, |pods|), c.maxSkew, SkewOf(after));
      }
    }
  }

  // ---------------------------------------------------------------- and needed

  function AllOn(pods: seq<Pod>, node: Node): (plan: Combination)
    ensures |plan| == |pods| && forall i :: 0 <= i < |pods| ==> plan[i].pod == pods[i] && plan[i].node == node
  {
    seq(|pods|, i requires 0 <= i < |pods| => Assignment(pods[i], node, None))
  }

  lemma {:induction false} AllMovedTo(pods: seq<Pod>, node: Node, c: SpreadConstraint, zones: map<string, string>,
                                     z: string, n: nat)
    requires n <= |pods|
    ensures MovedCount(AllOn(pods, node), c, zones, z, n)
         == if InZone(zones, node.name, z) then Counted(pods, c, n) else 0
  {
    hide Selected;
    if n > 0 { AllMovedTo(pods, node, c, zones, z, n - 1); }
  }

  /** Moving all pods to one node adds them to its domain alone. */
  lemma CountsOfAllOn(cluster: Cluster, pods: seq<Pod>, node: Node, c: SpreadConstraint)
    ensures var staying, after := Staying(cluster, pods, c), Counts(AllOn(pods, node), cluster.nodes, cluster.pods, c);
            && after.Keys == staying.Keys
            && forall z :: z in staying ==>
                 after[z] == staying[z]
                           + (if InZone(ZoneMap(cluster.nodes, c.topologyKey, |cluster.nodes|), node.name, z)
                              then Counted(pods, c, |pods|) else 0)
  {
    var zones, plan := ZoneMap(cluster.nodes, c.topologyKey, |cluster.nodes|), AllOn(pods, node);
    NamesAreMoved(plan, pods, |plan|);
    forall z ensures MovedCount(plan, c, zones, z, |plan|) == if InZone(zones, node.name, z)
                                                              then Counted(pods, c, |pods|) else 0 {
      AllMovedTo(pods, node, c, zones, z, |pods|);
    }
    hide Selected, InZone, MovedCount, StaticCount, Counted, MovedNames, Names, Zones, ZoneMap, AllOn;
  }

  /** The skew is at least every difference. */
  lemma SkewAtLeast(counts: map<string, int>, skew: int)
    requires IsSkewOf(counts, skew)
    ensures skew >= 0
    ensures forall y, z :: y in counts && z in counts ==> skew >= counts[y] - counts[z]
    ensures forall y :: y in counts ==> skew >= counts[y] - MAX_INT32
  {
    if counts != map[] {
      var z :| z in counts;
    }
  }

  ghost predicate EachDomainHasCandidate(cluster: Cluster, candidates: seq<Node>, c: SpreadConstraint) {
    forall z :: z in Zones(cluster.nodes, c.topologyKey, |cluster.nodes|) ==> HasCandidateIn(cluster, candidates, c, z)
  }

  ghost predicate HasCandidateIn(cluster: Cluster, candidates: seq<Node>, c: SpreadConstraint, z: string) {
    exists node :: node in candidates && InZone(ZoneMap(cluster.nodes, c.topologyKey, |cluster.nodes|), node.name, z)
  }

  ghost predicate CannotBreak(cluster: Cluster, candidates: seq<Node>, pods: seq<Pod>, c: SpreadConstraint) {
    forall plan :: Assigns(plan, candidates, pods) ==>
      SkewOf(Counts(plan, cluster.nodes, cluster.pods, c)) <= c.maxSkew
  }

  lemma AllOnAssigns(candidates: seq<Node>, pods: seq<Pod>, node: Node)
    requires node in candidates
    ensures Assigns(AllOn(pods, node), candidates, pods)
  {
  }

  lemma SkewOfAllOn(cluster: Cluster, candidates: seq<Node>, pods: seq<Pod>, c: SpreadConstraint, node: Node)
    requires CannotBreak(cluster, candidates, pods, c) && node in candidates
    ensures SkewOf(Counts(AllOn(pods, node), cluster.nodes, cluster.pods, c)) <= c.maxSkew
  {
    AllOnAssigns(candidates, pods, node);
    hide Assigns, AllOn, Counts, IsSkewOf;
  }

  lemma DomainHasSlack(cluster: Cluster, candidates: seq<Node>, pods: seq<Pod>, c: SpreadConstraint, y: string)
    requires CannotBreak(cluster, candidates, pods, c) && EachDomainHasCandidate(cluster, candidates, c)
    requires y in Staying(cluster, pods, c)
    ensures var staying, moved := Staying(cluster, pods, c), Counted(pods, c, |pods|);
            && staying[y] + moved <= MAX_INT32 + c.maxSkew
            && forall z :: z in staying && z != y ==> staying[y] + moved <= staying[z] + c.maxSkew
  {
    var zones := ZoneMap(cluster.nodes, c.topologyKey, |cluster.nodes|);
    assert HasCandidateIn(cluster, candidates, c, y);
    var node :| node in candidates && InZone(zones, node.name, y);
    SkewOfAllOn(cluster, candidates, pods, c, node);
    CountsOfAllOn(cluster, pods, node, c);
    hide AllOn, Counts, IsSkewOf, Counted, Zones, ZoneMap, Staying;
    var after := Counts(AllOn(pods, node), cluster.nodes, cluster.pods, c);
    SkewAtLeast(after, SkewOf(after));
  }

  /** Where every domain has a candidate, slack is exactly what it takes for no placement to break the
      constraint. */
  lemma {:induction false} SlackIff(cluster: Cluster, candidates: seq<Node>, pods: seq<Pod>, c: SpreadConstraint)
    requires candidates != [] && EachDomainHasCandidate(cluster, candidates, c)
    ensures HasSlackFor(cluster, pods, c) <==> CannotBreak(cluster, candidates, pods, c)
  {
    hide AllOn, Counts, IsSkewOf, Counted, Staying;
    if HasSlackFor(cluster, pods, c) {
      forall plan | Assigns(plan, candidates, pods)
        ensures SkewOf(Counts(plan, cluster.nodes, cluster.pods, c)) <= c.maxSkew
      {
        CountsAfter(plan, cluster, pods, c);
        var after := Counts(plan, cluster.nodes, cluster.pods, c);
        SlackBounds(Staying(cluster, pods, c), after, Counted(pods, c, |pods|), c.maxSkew, SkewOf(after));
      }
    }
    if CannotBreak(cluster, candidates, pods, c) {
      SkewOfAllOn(cluster, candidates, pods, c, candidates[0]);
      var after := Counts(AllOn(pods, candidates[0]), cluster.nodes, cluster.pods, c);
      SkewAtLeast(after, SkewOf(after));
      hide CannotBreak, EachDomainHasCandidate;
      forall y | y in Staying(cluster, pods, c)
        ensures var staying, moved := Staying(cluster, pods, c), Counted(pods, c, |pods|);
                && staying[y] + moved <= MAX_INT32 + c.maxSkew
                && forall z :: z in staying && z != y ==> staying[y] + moved <= staying[z] + c.maxSkew
      {
        DomainHasSlack(cluster, candidates, pods, c, y);
      }
    }
  }
}
