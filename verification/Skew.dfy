/** Topology skew of a plan: the virtual move of the planned pods, and how it relates to really
    moving them. */
module Skew {
  import opened Options
  import opened Kube

  const MAX_INT32 := 0x7FFF_FFFF

  // ---------------------------------------------------------------- counting

  predicate Selected(c: SpreadConstraint, labels: Labels) {
    c.selector.Some? ==> c.selector.value.matches(labels)
  }

  /** Node name to topology domain, for the nodes that carry the topology label. */
  function ZoneMap(nodes: seq<Node>, key: string, n: nat): map<string, string>
    requires n <= |nodes|
  {
    if n == 0 then map[]
    else if key in nodes[n - 1].labels then ZoneMap(nodes, key, n - 1)[nodes[n - 1].name := nodes[n - 1].labels[key]]
    else ZoneMap(nodes, key, n - 1)
  }

  function Zones(nodes: seq<Node>, key: string, n: nat): set<string>
    requires n <= |nodes|
  {
    if n == 0 then {}
    else Zones(nodes, key, n - 1) + (if key in nodes[n - 1].labels then {nodes[n - 1].labels[key]} else {})
  }

  predicate InZone(zones: map<string, string>, nodeName: string, z: string) {
    nodeName in zones && zones[nodeName] == z
  }

  function MovedNames(comb: Combination, n: nat): set<string>
    requires n <= |comb|
  {
    if n == 0 then {} else MovedNames(comb, n - 1) + {comb[n - 1].pod.name}
  }

  predicate IsStaticIn(p: Pod, moved: set<string>, c: SpreadConstraint, zones: map<string, string>, z: string) {
    !p.Finished() && p.name !in moved && Selected(c, p.labels) && InZone(zones, p.nodeName, z)
  }

  function StaticCount(pods: seq<Pod>, moved: set<string>, c: SpreadConstraint, zones: map<string, string>, z: string,
                       n: nat): nat
    requires n <= |pods|
  {
    if n == 0 then 0
    else StaticCount(pods, moved, c, zones, z, n - 1) + (if IsStaticIn(pods[n - 1], moved, c, zones, z) then 1 else 0)
  }

  predicate IsMovedTo(a: Assignment, c: SpreadConstraint, zones: map<string, string>, z: string) {
    Selected(c, a.pod.labels) && InZone(zones, a.node.name, z)
  }

  function MovedCount(comb: Combination, c: SpreadConstraint, zones: map<string, string>, z: string, n: nat): nat
    requires n <= |comb|
  {
    if n == 0 then 0
    else MovedCount(comb, c, zones, z, n - 1) + (if IsMovedTo(comb[n - 1], c, zones, z) then 1 else 0)
  }

  /** Pods per domain once the plan has been carried out virtually. */
  function Counts(comb: Combination, nodes: seq<Node>, pods: seq<Pod>, c: SpreadConstraint): map<string, int> {
    var zones := ZoneMap(nodes, c.topologyKey, |nodes|);
    map z | z in Zones(nodes, c.topologyKey, |nodes|) ::
      StaticCount(pods, MovedNames(comb, |comb|), c, zones, z, |pods|) + MovedCount(comb, c, zones, z, |comb|)
  }

  // ---------------------------------------------------------------- the counts are sizes

  /** The last listed node of this name that carries the topology label puts the name in domain z. */
  ghost predicate LivesIn(nodes: seq<Node>, key: string, name: string, z: string) {
    exists k :: && 0 <= k < |nodes| && nodes[k].name == name && key in nodes[k].labels && nodes[k].labels[key] == z
                && forall m :: k < m < |nodes| && nodes[m].name == name ==> key !in nodes[m].labels
  }

  lemma LivesInOfPrefix(nodes: seq<Node>, key: string, name: string, z: string, n: nat)
    requires n < |nodes|
    ensures LivesIn(nodes[..n + 1], key, name, z) <==>
            if nodes[n].name == name && key in nodes[n].labels then nodes[n].labels[key] == z
            else LivesIn(nodes[..n], key, name, z)
  {
    var now, before := nodes[..n + 1], nodes[..n];
    assert forall k :: 0 <= k < n ==> now[k] == before[k];
    assert now[n] == nodes[n];
    if LivesIn(before, key, name, z) && !(nodes[n].name == name && key in nodes[n].labels) {
      var k :| && 0 <= k < n && before[k].name == name && key in before[k].labels && before[k].labels[key] == z
               && forall m :: k < m < n && before[m].name == name ==> key !in before[m].labels;
      assert now[k] == before[k];
    }
  }

  lemma {:induction false} ZoneMapIs(nodes: seq<Node>, key: string, name: string, z: string, n: nat)
    requires n <= |nodes|
    ensures InZone(ZoneMap(nodes, key, n), name, z) <==> LivesIn(nodes[..n], key, name, z)
  {
    if n > 0 {
      ZoneMapIs(nodes, key, name, z, n - 1);
      LivesInOfPrefix(nodes, key, name, z, n - 1);
      hide LivesIn;
    }
  }

  lemma {:induction false} ZonesAre(nodes: seq<Node>, key: string, z: string, n: nat)
    requires n <= |nodes|
    ensures z in Zones(nodes, key, n) <==>
            exists k :: 0 <= k < n && key in nodes[k].labels && nodes[k].labels[key] == z
  {
    if n > 0 { ZonesAre(nodes, key, z, n - 1); }
  }

  lemma OneMore(before: set<int>, now: set<int>, n: int, joins: bool)
    requires n !in before && before <= now <= before + {n} && (n in now <==> joins)
    ensures |now| == |before| + if joins then 1 else 0
  {
    if joins { assert now == before + {n}; } else { assert now == before; }
  }

  lemma {:induction false} StaticCountIsSize(pods: seq<Pod>, moved: set<string>, c: SpreadConstraint,
                                             zones: map<string, string>, z: string, n: nat)
    requires n <= |pods|
    ensures StaticCount(pods, moved, c, zones, z, n)
         == |set i | 0 <= i < n && IsStaticIn(pods[i], moved, c, zones, z)|
  {
    hide IsStaticIn;
    if n > 0 {
      StaticCountIsSize(pods, moved, c, zones, z, n - 1);
      var before := set i | 0 <= i < n - 1 && IsStaticIn(pods[i], moved, c, zones, z);
      var now := set i | 0 <= i < n && IsStaticIn(pods[i], moved, c, zones, z);
      OneMore(before, now, n - 1, IsStaticIn(pods[n - 1], moved, c, zones, z));
    }
  }

  lemma {:induction false} MovedCountIsSize(comb: Combination, c: SpreadConstraint, zones: map<string, string>,
                                            z: string, n: nat)
    requires n <= |comb|
    ensures MovedCount(comb, c, zones, z, n) == |set i | 0 <= i < n && IsMovedTo(comb[i], c, zones, z)|
  {
    hide IsMovedTo;
    if n > 0 {
      MovedCountIsSize(comb, c, zones, z, n - 1);
      var before := set i | 0 <= i < n - 1 && IsMovedTo(comb[i], c, zones, z);
      var now := set i | 0 <= i < n && IsMovedTo(comb[i], c, zones, z);
      OneMore(before, now, n - 1, IsMovedTo(comb[n - 1], c, zones, z));
    }
  }

  lemma {:induction false} MovedNamesAre(comb: Combination, name: string, n: nat)
    requires n <= |comb|
    ensures name in MovedNames(comb, n) <==> exists k :: 0 <= k < n && comb[k].pod.name == name
  {
    if n > 0 { MovedNamesAre(comb, name, n - 1); }
  }

  /** An unfinished pod that the constraint selects, whose name no planned pod has, and that runs in the
      domain. */
  ghost predicate Stays(p: Pod, comb: Combination, nodes: seq<Node>, c: SpreadConstraint, z: string) {
    && p.phase != Succeeded && p.phase != Failed && (c.selector.Some? ==> c.selector.value.matches(p.labels))
    && (forall k :: 0 <= k < |comb| ==> comb[k].pod.name != p.name)
    && LivesIn(nodes, c.topologyKey, p.nodeName, z)
  }

  /** A planned pod that the constraint selects and that goes to the domain. */
  ghost predicate Comes(a: Assignment, nodes: seq<Node>, c: SpreadConstraint, z: string) {
    (c.selector.Some? ==> c.selector.value.matches(a.pod.labels)) && LivesIn(nodes, c.topologyKey, a.node.name, z)
  }

  lemma StaticAreStays(comb: Combination, nodes: seq<Node>, pods: seq<Pod>, c: SpreadConstraint, z: string)
    ensures var zones, moved := ZoneMap(nodes, c.topologyKey, |nodes|), MovedNames(comb, |comb|);
            (set i | 0 <= i < |pods| && IsStaticIn(pods[i], moved, c, zones, z))
            == set i | 0 <= i < |pods| && Stays(pods[i], comb, nodes, c, z)
  {
    var zones, moved := ZoneMap(nodes, c.topologyKey, |nodes|), MovedNames(comb, |comb|);
    hide ZoneMap, MovedNames, InZone, LivesIn;
    assert nodes[..|nodes|] == nodes;
    forall i | 0 <= i < |pods| ensures IsStaticIn(pods[i], moved, c, zones, z) <==> Stays(pods[i], comb, nodes, c, z) {
      ZoneMapIs(nodes, c.topologyKey, pods[i].nodeName, z, |nodes|);
      MovedNamesAre(comb, pods[i].name, |comb|);
    }
    hide IsStaticIn, Stays;
  }

  lemma MovedAreComing(comb: Combination, nodes: seq<Node>, c: SpreadConstraint, z: string)
    ensures var zones := ZoneMap(nodes, c.topologyKey, |nodes|);
            (set i | 0 <= i < |comb| && IsMovedTo(comb[i], c, zones, z))
            == set i | 0 <= i < |comb| && Comes(comb[i], nodes, c, z)
  {
    var zones := ZoneMap(nodes, c.topologyKey, |nodes|);
    hide ZoneMap, InZone, LivesIn;
    assert nodes[..|nodes|] == nodes;
    forall i | 0 <= i < |comb| ensures IsMovedTo(comb[i], c, zones, z) <==> Comes(comb[i], nodes, c, z) {
      ZoneMapIs(nodes, c.topologyKey, comb[i].node.name, z, |nodes|);
    }
    hide IsMovedTo, Comes;
  }

  /** The domains are the label values of the nodes, and the count of each is the number of pods that stay
      in it plus the number of planned pods that come. */
  lemma {:induction false} CountsAreSizes(comb: Combination, nodes: seq<Node>, pods: seq<Pod>, c: SpreadConstraint,
                                          z: string)
    ensures var counts := Counts(comb, nodes, pods, c);
            && (z in counts <==>
                  exists k :: 0 <= k < |nodes| && c.topologyKey in nodes[k].labels
                              && nodes[k].labels[c.topologyKey] == z)
            && (z in counts ==>
                  counts[z] == |set i | 0 <= i < |pods| && Stays(pods[i], comb, nodes, c, z)|
                               + |set i | 0 <= i < |comb| && Comes(comb[i], nodes, c, z)|)
  {
    var zones, moved := ZoneMap(nodes, c.topologyKey, |nodes|), MovedNames(comb, |comb|);
    ZonesAre(nodes, c.topologyKey, z, |nodes|);
    StaticCountIsSize(pods, moved, c, zones, z, |pods|);
    MovedCountIsSize(comb, c, zones, z, |comb|);
    hide ZoneMap, MovedNames, Zones, IsStaticIn, Stays, IsMovedTo, Comes, StaticCount, MovedCount;
    StaticAreStays(comb, nodes, pods, c, z);
    MovedAreComing(comb, nodes, c, z);
  }

  // ---------------------------------------------------------------- largest minus smallest

  ghost predicate IsPeak(counts: map<string, int>, hi: int) {
    && hi >= 0
    && (forall z :: z in counts ==> counts[z] <= hi)
    && (hi == 0 || exists z :: z in counts && counts[z] == hi)
  }

  ghost predicate IsFloor(counts: map<string, int>, lo: int) {
    && lo <= MAX_INT32
    && (forall z :: z in counts ==> lo <= counts[z])
    && (lo == MAX_INT32 || exists z :: z in counts && counts[z] == lo)
  }

  ghost predicate IsSkewOf(counts: map<string, int>, skew: int) {
    if counts == map[] then skew == 0
    else exists hi, lo :: IsPeak(counts, hi) && IsFloor(counts, lo) && skew == hi - lo
  }

  lemma {:induction false} SkewIsUnique(counts: map<string, int>, a: int, b: int)
    requires IsSkewOf(counts, a) && IsSkewOf(counts, b)
    ensures a == b
  {
  }

  /** The last step of the skew computation, ranging over the map in any order. */
  method MaxMinusMin(counts: map<string, int>) returns (skew: int)
    ensures IsSkewOf(counts, skew)
  {
    if counts == map[] { return 0; }
    var maxCount, minCount := 0, MAX_INT32;
    var left := counts.Keys;
    while left != {}
      invariant left <= counts.Keys
      invariant maxCount >= 0 && minCount <= MAX_INT32
      invariant forall z :: z in counts && z !in left ==> minCount <= counts[z] <= maxCount
      invariant maxCount == 0 || exists z :: z in counts && counts[z] == maxCount
      invariant minCount == MAX_INT32 || exists z :: z in counts && counts[z] == minCount
      decreases |left|
    {
      var z :| z in left;
      if counts[z] > maxCount { maxCount := counts[z]; }
      if counts[z] < minCount { minCount := counts[z]; }
      left := left - {z};
    }
    assert IsPeak(counts, maxCount) && IsFloor(counts, minCount);
    skew := maxCount - minCount;
  }

  method ZonesOfNodes(nodes: seq<Node>, key: string) returns (counts: map<string, int>, zones: map<string, string>)
    ensures zones == ZoneMap(nodes, key, |nodes|)
    ensures counts.Keys == Zones(nodes, key, |nodes|) && forall z :: z in counts ==> counts[z] == 0
    ensures forall name :: name in zones ==> zones[name] in counts
  {
    counts, zones := map[], map[];
    for i := 0 to |nodes|
      invariant zones == ZoneMap(nodes, key, i)
      invariant counts.Keys == Zones(nodes, key, i) && forall z :: z in counts ==> counts[z] == 0
      invariant forall name :: name in zones ==> zones[name] in counts
    {
      if key in nodes[i].labels {
        var zone := nodes[i].labels[key];
        counts := counts[zone := 0];
        zones := zones[nodes[i].name := zone];
      }
    }
  }

  /** Adds the pods that stay to the counts of their domains. */
  method CountStatic(counts0: map<string, int>, pods: seq<Pod>, moved: set<string>, c: SpreadConstraint,
                     zones: map<string, string>) returns (counts: map<string, int>)
    requires forall z :: z in counts0 ==> counts0[z] == 0
    requires forall name :: name in zones ==> zones[name] in counts0
    ensures counts.Keys == counts0.Keys
    ensures forall z :: z in counts ==> counts[z] == StaticCount(pods, moved, c, zones, z, |pods|)
  {
    hide Selected;
    counts := counts0;
    for i := 0 to |pods|
      invariant counts.Keys == counts0.Keys
      invariant forall z :: z in counts ==> counts[z] == StaticCount(pods, moved, c, zones, z, i)
    {
      var p := pods[i];
      if p.Finished() { continue; }
      if p.name in moved { continue; }
      if !Selected(c, p.labels) { continue; }
      if p.nodeName in zones {
        counts := counts[zones[p.nodeName] := counts[zones[p.nodeName]] + 1];
      }
    }
  }

  /** Adds the planned pods to the counts of the domains they move to. */
  method CountMoved(counts0: map<string, int>, comb: Combination, c: SpreadConstraint, zones: map<string, string>)
    returns (counts: map<string, int>)
    requires forall name :: name in zones ==> zones[name] in counts0
    ensures counts.Keys == counts0.Keys
    ensures forall z :: z in counts ==> counts[z] == counts0[z] + MovedCount(comb, c, zones, z, |comb|)
  {
    hide Selected;
    counts := counts0;
    for i := 0 to |comb|
      invariant counts.Keys == counts0.Keys
      invariant forall z :: z in counts ==> counts[z] == counts0[z] + MovedCount(comb, c, zones, z, i)
    {
      if !Selected(c, comb[i].pod.labels) { continue; }
      if comb[i].node.name in zones {
        counts := counts[zones[comb[i].node.name] := counts[zones[comb[i].node.name]] + 1];
      }
    }
  }

  method CalculateRealSkew(comb: Combination, nodes: seq<Node>, pods: seq<Pod>, c: SpreadConstraint)
    returns (skew: int)
    ensures IsSkewOf(Counts(comb, nodes, pods, c), skew)
  {
    hide IsSkewOf, Selected, StaticCount, MovedCount;
    var moved: set<string> := {};
    for i := 0 to |comb|
      invariant moved == MovedNames(comb, i)
    {
      moved := moved + {comb[i].pod.name};
    }
    hide MovedNames, Zones, ZoneMap;
    var counts, zones := ZonesOfNodes(nodes, c.topologyKey);
    var still := CountStatic(counts, pods, moved, c, zones);
    var all := CountMoved(still, comb, c, zones);
    assert all == Counts(comb, nodes, pods, c);
    skew := MaxMinusMin(all);
  }

  // ---------------------------------------------------------------- the real move

  function Destinations(comb: Combination, n: nat): map<string, string>
    requires n <= |comb|
  {
    if n == 0 then map[] else Destinations(comb, n - 1)[comb[n - 1].pod.Key() := comb[n - 1].node.name]
  }

  function Moved(p: Pod, destinations: map<string, string>): Pod {
    if p.Key() in destinations then p.(nodeName := destinations[p.Key()]) else p
  }

  /** The cluster's pods with the planned ones really bound to their destinations. */
  function Rebound(pods: seq<Pod>, destinations: map<string, string>): (r: seq<Pod>)
    ensures |r| == |pods|
  {
    seq(|pods|, i requires 0 <= i < |pods| => Moved(pods[i], destinations))
  }

  ghost predicate UniqueKeys(pods: seq<Pod>) {
    forall i, j :: 0 <= i < j < |pods| ==> pods[i].Key() != pods[j].Key()
  }

  /** The plan moves listed, unfinished pods, each once. */
  ghost predicate MovesListedPods(comb: Combination, pods: seq<Pod>) {
    && UniqueKeys(pods)
    && (forall i, j :: 0 <= i < j < |comb| ==> comb[i].pod.Key() != comb[j].pod.Key())
    && forall i :: 0 <= i < |comb| ==> !comb[i].pod.Finished() && exists j :: 0 <= j < |pods| && pods[j] == comb[i].pod
  }

  /** A live pod outside the plan that the constraint counts in z, and that shares its name with a
      planned pod of another namespace. */
  predicate IsBystander(p: Pod, comb: Combination, c: SpreadConstraint, zones: map<string, string>, z: string) {
    && !p.Finished() && Selected(c, p.labels) && InZone(zones, p.nodeName, z)
    && p.Key() !in Destinations(comb, |comb|) && p.name in MovedNames(comb, |comb|)
  }

  function Bystanders(pods: seq<Pod>, comb: Combination, c: SpreadConstraint, zones: map<string, string>, z: string,
                      n: nat): nat
    requires n <= |pods|
  {
    if n == 0 then 0
    else
      Bystanders(pods, comb, c, zones, z, n - 1) + (if IsBystander(pods[n - 1], comb, c, zones, z) then 1 else 0)
  }

  /** Pods of the plan, found in the listing, that land in z. */
  predicate IsArrival(p: Pod, destinations: map<string, string>, c: SpreadConstraint, zones: map<string, string>,
                      z: string) {
    !p.Finished() && Selected(c, p.labels) && p.Key() in destinations && InZone(zones, destinations[p.Key()], z)
  }

  function Arrivals(pods: seq<Pod>, destinations: map<string, string>, c: SpreadConstraint,
                    zones: map<string, string>, z: string, n: nat): nat
    requires n <= |pods|
  {
    if n == 0 then 0
    else
      Arrivals(pods, destinations, c, zones, z, n - 1)
      + (if IsArrival(pods[n - 1], destinations, c, zones, z) then 1 else 0)
  }

  lemma {:induction false} PlannedNamesAreMoved(comb: Combination, key: string, n: nat) returns (i: nat)
    requires n <= |comb| && key in Destinations(comb, n)
    ensures i < n && comb[i].pod.Key() == key && comb[i].pod.name in MovedNames(comb, n)
  {
    if comb[n - 1].pod.Key() == key {
      i := n - 1;
    } else {
      i := PlannedNamesAreMoved(comb, key, n - 1);
    }
  }

  lemma ListedPodOf(comb: Combination, pods: seq<Pod>, j: nat)
    requires MovesListedPods(comb, pods) && j < |pods|
    requires pods[j].Key() in Destinations(comb, |comb|)
    ensures pods[j].name in MovedNames(comb, |comb|)
  {
    var i := PlannedNamesAreMoved(comb, pods[j].Key(), |comb|);
    var k :| 0 <= k < |pods| && pods[k] == comb[i].pod;
    assert k == j;
  }

  /** Pod by pod, the real move counts the static pods, the arrivals and the bystanders. */
  lemma {:induction false} RealMoveSplits(comb: Combination, pods: seq<Pod>, c: SpreadConstraint,
                                          zones: map<string, string>, z: string, n: nat)
    requires MovesListedPods(comb, pods) && n <= |pods|
    ensures var d := Destinations(comb, |comb|);
            StaticCount(Rebound(pods, d), {}, c, zones, z, n)
            == StaticCount(pods, MovedNames(comb, |comb|), c, zones, z, n)
               + Arrivals(pods, d, c, zones, z, n) + Bystanders(pods, comb, c, zones, z, n)
  {
    hide MovesListedPods, Selected, InZone;
    if n > 0 {
      RealMoveSplits(comb, pods, c, zones, z, n - 1);
      if pods[n - 1].Key() in Destinations(comb, |comb|) { ListedPodOf(comb, pods, n - 1); }
    }
  }

  lemma {:induction false} OneArrival(pods: seq<Pod>, d: map<string, string>, a: Assignment, c: SpreadConstraint,
                                     zones: map<string, string>, z: string, j: nat, n: nat)
    requires UniqueKeys(pods) && j < |pods| && pods[j] == a.pod && !a.pod.Finished() && n <= |pods|
    requires a.pod.Key() !in d
    ensures Arrivals(pods, d[a.pod.Key() := a.node.name], c, zones, z, n)
         == Arrivals(pods, d, c, zones, z, n) + (if j < n && IsMovedTo(a, c, zones, z) then 1 else 0)
  {
    if n > 0 {
      OneArrival(pods, d, a, c, zones, z, j, n - 1);
      if n - 1 != j {
        assert pods[n - 1].Key() != a.pod.Key();
      }
    }
  }

  lemma {:induction false} NoArrivals(pods: seq<Pod>, c: SpreadConstraint, zones: map<string, string>, z: string,
                                      n: nat)
    requires n <= |pods|
    ensures Arrivals(pods, map[], c, zones, z, n) == 0
  {
    if n > 0 { NoArrivals(pods, c, zones, z, n - 1); }
  }

  lemma {:induction false} KeyNotYetPlanned(comb: Combination, key: string, n: nat)
    requires n <= |comb| && forall i :: 0 <= i < n ==> comb[i].pod.Key() != key
    ensures key !in Destinations(comb, n)
  {
    if n > 0 { KeyNotYetPlanned(comb, key, n - 1); }
  }

  /** Every assignment arrives exactly once. */
  lemma {:induction false} ArrivalsAreMoves(comb: Combination, pods: seq<Pod>, c: SpreadConstraint,
                                            zones: map<string, string>, z: string, n: nat)
    requires MovesListedPods(comb, pods) && n <= |comb|
    ensures Arrivals(pods, Destinations(comb, n), c, zones, z, |pods|) == MovedCount(comb, c, zones, z, n)
  {
    if n == 0 {
      NoArrivals(pods, c, zones, z, |pods|);
    } else {
      ArrivalsAreMoves(comb, pods, c, zones, z, n - 1);
      var a := comb[n - 1];
      KeyNotYetPlanned(comb, a.pod.Key(), n - 1);
      var j :| 0 <= j < |pods| && pods[j] == a.pod;
      hide MovesListedPods, IsMovedTo;
      OneArrival(pods, Destinations(comb, n - 1), a, c, zones, z, j, |pods|);
    }
  }

  /** In every domain the real move exceeds the virtual one by the bystanders. */
  lemma {:induction false} VirtualMoveGap(comb: Combination, nodes: seq<Node>, pods: seq<Pod>, c: SpreadConstraint,
                                          z: string)
    requires MovesListedPods(comb, pods) && z in Zones(nodes, c.topologyKey, |nodes|)
    ensures Counts([], nodes, Rebound(pods, Destinations(comb, |comb|)), c)[z]
         == Counts(comb, nodes, pods, c)[z]
            + Bystanders(pods, comb, c, ZoneMap(nodes, c.topologyKey, |nodes|), z, |pods|)
  {
    hide MovesListedPods;
    var zones := ZoneMap(nodes, c.topologyKey, |nodes|);
    RealMoveSplits(comb, pods, c, zones, z, |pods|);
    ArrivalsAreMoves(comb, pods, c, zones, z, |comb|);
  }

  ghost predicate NoBystanders(comb: Combination, nodes: seq<Node>, pods: seq<Pod>, c: SpreadConstraint) {
    forall i, z :: 0 <= i < |pods| && z in Zones(nodes, c.topologyKey, |nodes|) ==>
      !IsBystander(pods[i], comb, c, ZoneMap(nodes, c.topologyKey, |nodes|), z)
  }

  lemma {:induction false} BystandersZero(pods: seq<Pod>, comb: Combination, c: SpreadConstraint,
                                          zones: map<string, string>, z: string, n: nat)
    requires n <= |pods|
    ensures Bystanders(pods, comb, c, zones, z, n) == 0 <==>
            forall i :: 0 <= i < n ==> !IsBystander(pods[i], comb, c, zones, z)
  {
    if n > 0 { BystandersZero(pods, comb, c, zones, z, n - 1); }
  }

  /** The virtual move counts like the real one exactly when no live, counted pod outside the plan
      shares its name with a planned pod. */
  lemma {:induction false} VirtualMoveIsRealMove(comb: Combination, nodes: seq<Node>, pods: seq<Pod>,
                                                 c: SpreadConstraint)
    requires MovesListedPods(comb, pods)
    ensures Counts(comb, nodes, pods, c) == Counts([], nodes, Rebound(pods, Destinations(comb, |comb|)), c)
       <==> NoBystanders(comb, nodes, pods, c)
  {
    hide MovesListedPods, IsBystander, Counts;
    var zones := ZoneMap(nodes, c.topologyKey, |nodes|);
    var planned, actual := Counts(comb, nodes, pods, c),
      Counts([], nodes, Rebound(pods, Destinations(comb, |comb|)), c);
    CountedZones(comb, nodes, pods, c);
    CountedZones([], nodes, Rebound(pods, Destinations(comb, |comb|)), c);
    forall z | z in Zones(nodes, c.topologyKey, |nodes|)
      ensures planned[z] == actual[z] <==> forall i :: 0 <= i < |pods| ==> !IsBystander(pods[i], comb, c, zones, z)
    {
      VirtualMoveGap(comb, nodes, pods, c, z);
      BystandersZero(pods, comb, c, zones, z, |pods|);
    }
  }

  lemma CountedZones(comb: Combination, nodes: seq<Node>, pods: seq<Pod>, c: SpreadConstraint)
    ensures Counts(comb, nodes, pods, c).Keys == Zones(nodes, c.topologyKey, |nodes|)
  {
  }

  /** So the skew computed for a plan is the skew of the cluster after the move. */
  lemma {:induction false} SkewOfPlanIsSkewAfterMove(comb: Combination, nodes: seq<Node>, pods: seq<Pod>,
                                                     c: SpreadConstraint, planned: int, after: int)
    requires MovesListedPods(comb, pods) && NoBystanders(comb, nodes, pods, c)
    requires IsSkewOf(Counts(comb, nodes, pods, c), planned)
    requires IsSkewOf(Counts([], nodes, Rebound(pods, Destinations(comb, |comb|)), c), after)
    ensures planned == after
  {
    hide Counts, IsSkewOf;
    VirtualMoveIsRealMove(comb, nodes, pods, c);
    SkewIsUnique(Counts(comb, nodes, pods, c), planned, after);
  }

  // ---------------------------------------------------------------- when the skew is right all the same

  /** The bystanders of every domain. */
  function Gains(comb: Combination, nodes: seq<Node>, pods: seq<Pod>, c: SpreadConstraint): map<string, int> {
    var zones := ZoneMap(nodes, c.topologyKey, |nodes|);
    map z | z in Zones(nodes, c.topologyKey, |nodes|) :: Bystanders(pods, comb, c, zones, z, |pods|)
  }

  /** The gains raise the largest count, hi, and the smallest, lo, by the same k. */
  ghost predicate ShiftsEvenly(planned: map<string, int>, gains: map<string, int>, hi: int, lo: int, k: nat)
    requires gains.Keys == planned.Keys
  {
    && (forall z :: z in planned ==> lo + k <= planned[z] + gains[z] <= hi + k)
    && (exists z :: z in planned && planned[z] + gains[z] == hi + k)
    && lo + k <= MAX_INT32
    && (lo + k == MAX_INT32 || exists z :: z in planned && planned[z] + gains[z] == lo + k)
  }

  /** The counts after the real move, seen from the planned ones. */
  lemma RealCounts(comb: Combination, nodes: seq<Node>, pods: seq<Pod>, c: SpreadConstraint)
    requires MovesListedPods(comb, pods)
    ensures var planned, gains := Counts(comb, nodes, pods, c), Gains(comb, nodes, pods, c);
            var actual := Counts([], nodes, Rebound(pods, Destinations(comb, |comb|)), c);
            && actual.Keys == planned.Keys == gains.Keys
            && forall z :: z in planned ==> 0 <= planned[z] && 0 <= gains[z] && actual[z] == planned[z] + gains[z]
  {
    CountedZones(comb, nodes, pods, c);
    CountedZones([], nodes, Rebound(pods, Destinations(comb, |comb|)), c);
    forall z | z in Zones(nodes, c.topologyKey, |nodes|)
      ensures 0 <= Counts(comb, nodes, pods, c)[z]
      ensures Counts([], nodes, Rebound(pods, Destinations(comb, |comb|)), c)[z]
           == Counts(comb, nodes, pods, c)[z]
              + Bystanders(pods, comb, c, ZoneMap(nodes, c.topologyKey, |nodes|), z, |pods|)
    {
      VirtualMoveGap(comb, nodes, pods, c, z);
    }
  }

  lemma ShiftIs(planned: map<string, int>, gains: map<string, int>, actual: map<string, int>, hi: int, lo: int, k: nat)
    requires actual.Keys == planned.Keys == gains.Keys
    requires forall z :: z in planned ==> 0 <= planned[z] && 0 <= gains[z] && actual[z] == planned[z] + gains[z]
    requires planned != map[] && IsPeak(planned, hi)
    ensures ShiftsEvenly(planned, gains, hi, lo, k) <==> IsPeak(actual, hi + k) && IsFloor(actual, lo + k)
  {
    if IsPeak(actual, hi + k) && IsFloor(actual, lo + k) {
      forall z | z in planned ensures lo + k <= planned[z] + gains[z] <= hi + k {
        assert z in actual;
      }
      if hi + k == 0 {
        var z :| z in planned;
      } else {
        var z :| z in actual && actual[z] == hi + k;
        assert z in planned && planned[z] + gains[z] == hi + k;
      }
      if lo + k != MAX_INT32 {
        var z :| z in actual && actual[z] == lo + k;
        assert z in planned && planned[z] + gains[z] == lo + k;
      }
    }
    if ShiftsEvenly(planned, gains, hi, lo, k) {
      var z :| z in planned && planned[z] + gains[z] == hi + k;
      assert z in actual && actual[z] == hi + k;
      if lo + k != MAX_INT32 {
        var y :| y in planned && planned[y] + gains[y] == lo + k;
        assert y in actual && actual[y] == lo + k;
      }
    }
  }

  lemma EvenShift(planned: map<string, int>, gains: map<string, int>, actual: map<string, int>, hi: int, lo: int,
                  skew: int, after: int)
    requires actual.Keys == planned.Keys == gains.Keys
    requires forall z :: z in planned ==> 0 <= planned[z] && 0 <= gains[z] && actual[z] == planned[z] + gains[z]
    requires planned != map[] && IsPeak(planned, hi) && IsFloor(planned, lo)
    requires IsSkewOf(planned, skew) && IsSkewOf(actual, after)
    ensures skew == after <==> exists k: nat :: ShiftsEvenly(planned, gains, hi, lo, k)
  {
    hide IsPeak, IsFloor, ShiftsEvenly;
    SkewIsUnique(planned, skew, hi - lo);
    assert actual != map[] by { var some :| some in planned; assert some in actual; }
    var hi', lo' :| IsPeak(actual, hi') && IsFloor(actual, lo') && after == hi' - lo';
    if skew == after {
      assert hi' >= hi by { RaisedPeak(planned, actual, hi, hi'); }
      ShiftIs(planned, gains, actual, hi, lo, hi' - hi);
    }
    if k: nat :| ShiftsEvenly(planned, gains, hi, lo, k) {
      ShiftIs(planned, gains, actual, hi, lo, k);
      SkewIsUnique(actual, after, hi - lo);
    }
  }

  lemma RaisedPeak(planned: map<string, int>, actual: map<string, int>, hi: int, hi': int)
    requires actual.Keys == planned.Keys && forall z :: z in planned ==> planned[z] <= actual[z]
    requires IsPeak(planned, hi) && IsPeak(actual, hi')
    ensures hi' >= hi
  {
    if hi != 0 {
      var z :| z in planned && planned[z] == hi;
      assert z in actual;
    }
  }

  /** The skew computed for a plan is the skew after the real move exactly when the bystanders raise the
      largest and the smallest count alike. */
  lemma {:induction false} SkewIsRightIff(comb: Combination, nodes: seq<Node>, pods: seq<Pod>, c: SpreadConstraint,
                                          hi: int, lo: int, planned: int, after: int)
    requires MovesListedPods(comb, pods) && Counts(comb, nodes, pods, c) != map[]
    requires IsPeak(Counts(comb, nodes, pods, c), hi) && IsFloor(Counts(comb, nodes, pods, c), lo)
    requires IsSkewOf(Counts(comb, nodes, pods, c), planned)
    requires IsSkewOf(Counts([], nodes, Rebound(pods, Destinations(comb, |comb|)), c), after)
    ensures Gains(comb, nodes, pods, c).Keys == Counts(comb, nodes, pods, c).Keys
    ensures planned == after <==>
            exists k: nat :: ShiftsEvenly(Counts(comb, nodes, pods, c), Gains(comb, nodes, pods, c), hi, lo, k)
  {
    RealCounts(comb, nodes, pods, c);
    hide Counts, Gains, MovesListedPods, ShiftsEvenly, IsPeak, IsFloor, IsSkewOf, Rebound, Destinations;
    EvenShift(Counts(comb, nodes, pods, c), Gains(comb, nodes, pods, c),
              Counts([], nodes, Rebound(pods, Destinations(comb, |comb|)), c), hi, lo, planned, after);
  }

  // ---------------------------------------------------------------- an input with a wrong skew

  /** Two running pods of one name, in two namespaces, on one node: planning the first makes the count
      forget the second, and the plan is given skew 1 where the move leaves skew 0. */
  lemma {:induction false} VirtualMoveCanMiscount() returns (comb: Combination, nodes: seq<Node>, pods: seq<Pod>,
                                                             c: SpreadConstraint)
    ensures MovesListedPods(comb, pods)
    ensures IsSkewOf(Counts(comb, nodes, pods, c), 1)
    ensures IsSkewOf(Counts([], nodes, Rebound(pods, Destinations(comb, |comb|)), c), 0)
  {
    hide Counts;
    var a := Node("a", map["zone" := "x"], [], Resources(1000, 1000));
    var b := Node("b", map["zone" := "y"], [], Resources(1000, 1000));
    var p := Pod("one", "web", map["app" := "web"], "a", Running, [], [], [], None, [], [], [], [], [], []);
    var q := p.(namespace := "two");
    c := SpreadConstraint("zone", true, 1, Some(LabelSelector("app=web", labels => true)), "app=web");
    comb, nodes, pods := [Assignment(p, b, None)], [a, b], [p, q];
    assert "a"[0] == 'a' && "b"[0] == 'b' && "x"[0] == 'x' && "y"[0] == 'y';
    TwinIsMissed(comb, nodes, pods, c, "x", "y");
  }

  /** Two nodes in two zones; of two pods of one name on the first node, one is planned to the second. */
  ghost predicate PlansOneTwin(comb: Combination, nodes: seq<Node>, pods: seq<Pod>, c: SpreadConstraint, x: string,
                               y: string) {
    && |comb| == 1 && |nodes| == 2 && |pods| == 2 && comb[0].pod == pods[0] && comb[0].node == nodes[1]
    && c.topologyKey in nodes[0].labels && c.topologyKey in nodes[1].labels && nodes[0].name != nodes[1].name
    && nodes[0].labels[c.topologyKey] == x && nodes[1].labels[c.topologyKey] == y && x != y
    && pods[0].namespace == "one" && pods[1].namespace == "two" && pods[0].name == pods[1].name
    && pods[0].nodeName == pods[1].nodeName == nodes[0].name && !pods[0].Finished() && !pods[1].Finished()
    && Selected(c, pods[0].labels) && Selected(c, pods[1].labels)
  }

  lemma TwinsAreListed(comb: Combination, nodes: seq<Node>, pods: seq<Pod>, c: SpreadConstraint, x: string, y: string)
    requires PlansOneTwin(comb, nodes, pods, c, x, y)
    ensures MovesListedPods(comb, pods)
    ensures MovedNames(comb, 1) == {pods[0].name} && Destinations(comb, 1).Keys == {pods[0].Key()}
    ensures pods[0].Key() != pods[1].Key()
  {
    KeysDiffer(pods[0], pods[1]);
    assert MovesListedPods(comb, pods) by { assert pods[0] == comb[0].pod; }
    assert Destinations(comb, 0) == map[] && MovedNames(comb, 0) == {};
  }

  /** The planned counts: nobody in x, the planned pod in y. */
  lemma TwinCounts(comb: Combination, nodes: seq<Node>, pods: seq<Pod>, c: SpreadConstraint, x: string, y: string)
    requires PlansOneTwin(comb, nodes, pods, c, x, y)
    ensures Counts(comb, nodes, pods, c) == map[x := 0, y := 1]
  {
    TwinsAreListed(comb, nodes, pods, c, x, y);
    ZonesOfTwo(nodes, c.topologyKey);
    hide Selected, MovedNames, ZoneMap, Zones;
    var zones, moved := ZoneMap(nodes, c.topologyKey, 2), MovedNames(comb, 1);
    forall z ensures StaticCount(pods, moved, c, zones, z, 2) == 0 {
      assert StaticCount(pods, moved, c, zones, z, 0) == 0 == StaticCount(pods, moved, c, zones, z, 1);
    }
    forall z ensures MovedCount(comb, c, zones, z, 1) == if z == y then 1 else 0 {
      assert MovedCount(comb, c, zones, z, 0) == 0;
    }
  }

  /** The twin that stays is the only bystander. */
  lemma TwinStands(comb: Combination, nodes: seq<Node>, pods: seq<Pod>, c: SpreadConstraint, x: string, y: string)
    requires PlansOneTwin(comb, nodes, pods, c, x, y)
    ensures Gains(comb, nodes, pods, c) == map[x := 1, y := 0]
  {
    TwinsAreListed(comb, nodes, pods, c, x, y);
    ZonesOfTwo(nodes, c.topologyKey);
    hide Selected, MovedNames, Destinations, ZoneMap, Zones;
    var zones := ZoneMap(nodes, c.topologyKey, 2);
    forall z ensures Bystanders(pods, comb, c, zones, z, 2) == if z == x then 1 else 0 {
      assert Bystanders(pods, comb, c, zones, z, 0) == 0 == Bystanders(pods, comb, c, zones, z, 1);
    }
  }

  lemma TwinIsMissed(comb: Combination, nodes: seq<Node>, pods: seq<Pod>, c: SpreadConstraint, x: string, y: string)
    requires PlansOneTwin(comb, nodes, pods, c, x, y)
    ensures MovesListedPods(comb, pods)
    ensures IsSkewOf(Counts(comb, nodes, pods, c), 1)
    ensures IsSkewOf(Counts([], nodes, Rebound(pods, Destinations(comb, |comb|)), c), 0)
  {
    TwinsAreListed(comb, nodes, pods, c, x, y);
    TwinCounts(comb, nodes, pods, c, x, y);
    TwinStands(comb, nodes, pods, c, x, y);
    RealCounts(comb, nodes, pods, c);
    assert x != y;
    hide *;
    SkewsOfTwins(Counts(comb, nodes, pods, c), Gains(comb, nodes, pods, c),
                 Counts([], nodes, Rebound(pods, Destinations(comb, |comb|)), c), x, y);
  }

  lemma SkewsOfTwins(planned: map<string, int>, gains: map<string, int>, actual: map<string, int>, x: string, y: string)
    requires x != y && planned == map[x := 0, y := 1] && gains == map[x := 1, y := 0]
    requires actual.Keys == planned.Keys && forall z :: z in planned ==> actual[z] == planned[z] + gains[z]
    ensures IsSkewOf(planned, 1) && IsSkewOf(actual, 0)
  {
    assert planned.Keys == {x, y} && planned[x] == 0 && planned[y] == 1;
    assert actual[x] == 1 && actual[y] == 1;
    hide *;
    SkewOfZones(planned, x, y, 0, 1);
    SkewOfZones(actual, x, y, 1, 1);
  }

  lemma SkewOfZones(counts: map<string, int>, x: string, y: string, less: nat, more: nat)
    requires x != y && counts.Keys == {x, y} && counts[x] == less <= counts[y] == more <= MAX_INT32
    ensures IsSkewOf(counts, more - less)
  {
    assert IsPeak(counts, more) && IsFloor(counts, less);
  }

  lemma ZonesOfTwo(nodes: seq<Node>, key: string)
    requires |nodes| == 2 && key in nodes[0].labels && key in nodes[1].labels && nodes[0].name != nodes[1].name
    ensures ZoneMap(nodes, key, 2) == map[nodes[0].name := nodes[0].labels[key], nodes[1].name := nodes[1].labels[key]]
    ensures Zones(nodes, key, 2) == {nodes[0].labels[key], nodes[1].labels[key]}
  {
    assert ZoneMap(nodes, key, 0) == map[] && Zones(nodes, key, 0) == {};
    assert ZoneMap(nodes, key, 1) == map[nodes[0].name := nodes[0].labels[key]];
    assert Zones(nodes, key, 1) == {nodes[0].labels[key]};
  }

  lemma KeysDiffer(p: Pod, q: Pod)
    requires p.namespace == "one" && q.namespace == "two"
    ensures p.Key() != q.Key()
  {
    assert p.Key()[0] == 'o' && q.Key()[0] == 't';
  }
}
