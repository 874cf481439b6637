/** The greedy placer: one pod at a time, on the first admissible candidate of maximal score. */
module Placement {
  import opened Options
  import opened Kube
  import opened PodRequests
  import opened Scoring

  // ---------------------------------------------------------------- the ledger of a plan

  /** What the plan's pods request on a node. */
  function RequestedOn(plan: Combination, name: string, n: nat): Requests
    requires n <= |plan|
  {
    if n == 0 then Requests(0, 0)
    else
      var before, r := RequestedOn(plan, name, n - 1), EffectiveRequests(plan[n - 1].pod);
      if plan[n - 1].node.name == name then Requests(before.cpu + r.cpu, before.memory + r.memory) else before
  }

  /** The pods the plan puts on a node, in placing order. */
  function PlacedOn(plan: Combination, name: string, n: nat): seq<Pod>
    requires n <= |plan|
  {
    if n == 0 then []
    else PlacedOn(plan, name, n - 1) + (if plan[n - 1].node.name == name then [plan[n - 1].pod] else [])
  }

  /** The placer's map of free resources after the first n steps of the plan. */
  function FreeAfter(freeInit: map<string, Resources>, plan: Combination, n: nat): map<string, Resources>
    requires n <= |plan|
  {
    if n == 0 then freeInit
    else
      var before, name := FreeAfter(freeInit, plan, n - 1), plan[n - 1].node.name;
      before[name := LookupFree(before, name).Minus(EffectiveRequests(plan[n - 1].pod))]
  }

  /** The placer's map of placed pods after the first n steps of the plan. */
  function PlacedAfter(plan: Combination, n: nat): map<string, seq<Pod>>
    requires n <= |plan|
  {
    if n == 0 then map[]
    else
      var before, name := PlacedAfter(plan, n - 1), plan[n - 1].node.name;
      before[name := Lookup(before, name) + [plan[n - 1].pod]]
  }

  /** Conservation: what is free plus what the plan put there is what was free at first. */
  lemma {:induction false} LedgerBalances(freeInit: map<string, Resources>, plan: Combination, name: string, n: nat)
    requires n <= |plan|
    ensures var left, used := LookupFree(FreeAfter(freeInit, plan, n), name), RequestedOn(plan, name, n);
            && left.cpu + used.cpu == LookupFree(freeInit, name).cpu
            && left.memory + used.memory == LookupFree(freeInit, name).memory
    ensures Lookup(PlacedAfter(plan, n), name) == PlacedOn(plan, name, n)
  {
    hide EffectiveRequests;
    if n > 0 { LedgerBalances(freeInit, plan, name, n - 1); }
  }

  // ---------------------------------------------------------------- one step

  predicate Admissible(pod: Pod, req: Requests, node: Node, free: map<string, Resources>,
                       resident: map<string, seq<Pod>>, placed: map<string, seq<Pod>>) {
    && LookupFree(free, node.name).Fits(req)
    && ToleratesTaints(pod, node)
    && MatchesNodeAffinity(pod, node)
    && AffinityOnNode(Occupants(node.name, resident, placed), [pod])
  }

  /** The admissible ones among the first n candidates, in candidate order. */
  function AdmissibleIndices(pod: Pod, candidates: seq<Node>, free: map<string, Resources>,
                             resident: map<string, seq<Pod>>, placed: map<string, seq<Pod>>, n: nat): (adm: seq<nat>)
    requires n <= |candidates|
    ensures forall k :: 0 <= k < |adm| ==> adm[k] < n
  {
    if n == 0 then []
    else AdmissibleIndices(pod, candidates, free, resident, placed, n - 1)
         + (if Admissible(pod, EffectiveRequests(pod), candidates[n - 1], free, resident, placed) then [n - 1] else [])
  }

  lemma {:induction false} AdmissibleIndicesAre(pod: Pod, candidates: seq<Node>, free: map<string, Resources>,
                                               resident: map<string, seq<Pod>>, placed: map<string, seq<Pod>>, n: nat,
                                               c: nat)
    requires n <= |candidates|
    ensures c in AdmissibleIndices(pod, candidates, free, resident, placed, n)
       <==> c < n && Admissible(pod, EffectiveRequests(pod), candidates[c], free, resident, placed)
  {
    hide Admissible, EffectiveRequests;
    if n > 0 { AdmissibleIndicesAre(pod, candidates, free, resident, placed, n - 1, c); }
  }

  lemma {:induction false} AdmissibleIndicesOrdered(pod: Pod, candidates: seq<Node>, free: map<string, Resources>,
                                                   resident: map<string, seq<Pod>>, placed: map<string, seq<Pod>>,
                                                   n: nat)
    requires n <= |candidates|
    ensures Ascending(AdmissibleIndices(pod, candidates, free, resident, placed, n))
  {
    hide Admissible, EffectiveRequests;
    if n > 0 {
      AdmissibleIndicesOrdered(pod, candidates, free, resident, placed, n - 1);
      AscendingPush(AdmissibleIndices(pod, candidates, free, resident, placed, n - 1), n - 1);
    }
  }

  ghost predicate Ascending(adm: seq<nat>) {
    forall j, k :: 0 <= j < k < |adm| ==> adm[j] < adm[k]
  }

  lemma AscendingPush(adm: seq<nat>, x: nat)
    requires Ascending(adm) && forall k :: 0 <= k < |adm| ==> adm[k] < x
    ensures Ascending(adm + [x]) && adm + [] == adm
  {
  }

  /** best has the highest score, and every candidate before it a lower one. */
  ghost predicate IsFirstBest(adm: seq<nat>, scores: seq<real>, best: nat)
    requires |scores| == |adm|
  {
    exists b :: 0 <= b < |adm| && adm[b] == best && forall k :: 0 <= k < |adm| ==>
      scores[k] <= scores[b] && (adm[k] < best ==> scores[k] < scores[b])
  }

  lemma FirstMaxIsFirstBest(adm: seq<nat>, scores: seq<real>)
    requires Ascending(adm) && |scores| == |adm| > 0
    ensures IsFirstBest(adm, scores, adm[FirstMax(scores, |adm|)])
  {
    var b := FirstMax(scores, |adm|);
    forall k | 0 <= k < |adm| ensures scores[k] <= scores[b] && (adm[k] < adm[b] ==> scores[k] < scores[b]) {
      assert k > b ==> adm[b] < adm[k];
    }
  }

  /** The first position of the maximum. */
  function FirstMax(scores: seq<real>, n: nat): (b: nat)
    requires 0 < n <= |scores|
    ensures b < n
    ensures forall i :: 0 <= i < n ==> scores[i] <= scores[b]
    ensures forall i :: 0 <= i < b ==> scores[i] < scores[b]
  {
    if n == 1 then 0
    else if scores[n - 1] > scores[FirstMax(scores, n - 1)] then n - 1 else FirstMax(scores, n - 1)
  }

  /** The candidate the pod goes to: the first admissible one of maximal score. */
  function Choice(pod: Pod, candidates: seq<Node>, free: map<string, Resources>,
                  resident: map<string, seq<Pod>>, placed: map<string, seq<Pod>>): (c: Option<nat>)
    ensures c.Some? ==> c.value < |candidates|
  {
    var adm := AdmissibleIndices(pod, candidates, free, resident, placed, |candidates|);
    if adm == [] then None
    else
      var scores := Scores(pod, EffectiveRequests(pod), candidates, adm, free, resident, placed);
      Some(adm[FirstMax(scores, |adm|)])
  }

  /** There is a choice exactly when some candidate is admissible, and the choice is one. */
  lemma {:induction false} ChoiceIsAdmissible(pod: Pod, candidates: seq<Node>, free: map<string, Resources>,
                           resident: map<string, seq<Pod>>, placed: map<string, seq<Pod>>)
    ensures var c := Choice(pod, candidates, free, resident, placed);
            && (c.Some? ==> Admissible(pod, EffectiveRequests(pod), candidates[c.value], free, resident, placed))
            && (c.None? ==> forall i :: 0 <= i < |candidates| ==>
                 !Admissible(pod, EffectiveRequests(pod), candidates[i], free, resident, placed))
  {
    hide Admissible, EffectiveRequests, AdmissibleIndices, Scores;
    var adm := AdmissibleIndices(pod, candidates, free, resident, placed, |candidates|);
    if adm == [] {
      forall i | 0 <= i < |candidates|
        ensures !Admissible(pod, EffectiveRequests(pod), candidates[i], free, resident, placed)
      {
        AdmissibleIndicesAre(pod, candidates, free, resident, placed, |candidates|, i);
      }
    } else {
      var c := Choice(pod, candidates, free, resident, placed).value;
      assert c in adm;
      AdmissibleIndicesAre(pod, candidates, free, resident, placed, |candidates|, c);
    }
  }

  /** No admissible candidate scores more than the choice, and none before it scores as much. */
  lemma {:induction false} ChoiceIsFirstBest(pod: Pod, candidates: seq<Node>, free: map<string, Resources>,
                          resident: map<string, seq<Pod>>, placed: map<string, seq<Pod>>, best: nat)
    requires Choice(pod, candidates, free, resident, placed) == Some(best)
    ensures var adm := AdmissibleIndices(pod, candidates, free, resident, placed, |candidates|);
            var scores := Scores(pod, EffectiveRequests(pod), candidates, adm, free, resident, placed);
            IsFirstBest(adm, scores, best)
  {
    AdmissibleIndicesOrdered(pod, candidates, free, resident, placed, |candidates|);
    hide EffectiveRequests, AdmissibleIndices, Scores, IsFirstBest, FirstMax;
    var adm := AdmissibleIndices(pod, candidates, free, resident, placed, |candidates|);
    FirstMaxIsFirstBest(adm, Scores(pod, EffectiveRequests(pod), candidates, adm, free, resident, placed));
  }

  // ---------------------------------------------------------------- greedy plans

  ghost predicate IsGreedyStep(ordered: seq<Pod>, candidates: seq<Node>, freeInit: map<string, Resources>,
                               resident: map<string, seq<Pod>>, plan: Combination, i: nat)
    requires i < |plan| && i < |ordered|
  {
    var c := Choice(ordered[i], candidates, FreeAfter(freeInit, plan, i), resident, PlacedAfter(plan, i));
    c.Some? && plan[i] == Assignment(ordered[i], candidates[c.value], None)
  }

  /** Each pod in turn went where Choice sends it, given the steps before. */
  ghost predicate IsGreedy(ordered: seq<Pod>, candidates: seq<Node>, freeInit: map<string, Resources>,
                           resident: map<string, seq<Pod>>, plan: Combination) {
    && |plan| <= |ordered|
    && forall i :: 0 <= i < |plan| ==> IsGreedyStep(ordered, candidates, freeInit, resident, plan, i)
  }

  /** The placement gets stuck after plan. */
  ghost predicate IsStuck(ordered: seq<Pod>, candidates: seq<Node>, freeInit: map<string, Resources>,
                          resident: map<string, seq<Pod>>, plan: Combination) {
    && IsGreedy(ordered, candidates, freeInit, resident, plan) && |plan| < |ordered|
    && Choice(ordered[|plan|], candidates, FreeAfter(freeInit, plan, |plan|), resident, PlacedAfter(plan, |plan|))
      == None
  }

  lemma {:induction false} StateOfPrefix(freeInit: map<string, Resources>, plan: Combination, longer: Combination,
                                         n: nat)
    requires n <= |plan| && n <= |longer| && forall i :: 0 <= i < n ==> longer[i] == plan[i]
    ensures FreeAfter(freeInit, longer, n) == FreeAfter(freeInit, plan, n)
    ensures PlacedAfter(longer, n) == PlacedAfter(plan, n)
  {
    hide EffectiveRequests;
    if n > 0 { StateOfPrefix(freeInit, plan, longer, n - 1); }
  }

  lemma ExtendGreedy(ordered: seq<Pod>, candidates: seq<Node>, freeInit: map<string, Resources>,
                     resident: map<string, seq<Pod>>, plan: Combination, a: Assignment)
    requires IsGreedy(ordered, candidates, freeInit, resident, plan) && |plan| < |ordered|
    requires IsGreedyStep(ordered, candidates, freeInit, resident, plan + [a], |plan|)
    ensures IsGreedy(ordered, candidates, freeInit, resident, plan + [a])
  {
    forall i | 0 <= i < |plan| + 1
      ensures IsGreedyStep(ordered, candidates, freeInit, resident, plan + [a], i)
    {
      if i < |plan| {
        StateOfPrefix(freeInit, plan, plan + [a], i);
        assert IsGreedyStep(ordered, candidates, freeInit, resident, plan, i);
      }
    }
  }

  /** The two maps of the placer after one more assignment. */
  lemma OneMoreStep(freeInit: map<string, Resources>, plan: Combination, a: Assignment)
    ensures var longer, n, name := plan + [a], |plan|, a.node.name;
            && FreeAfter(freeInit, longer, n + 1)
               == FreeAfter(freeInit, plan, n)[
                    name := LookupFree(FreeAfter(freeInit, plan, n), name).Minus(EffectiveRequests(a.pod))]
            && PlacedAfter(longer, n + 1) == PlacedAfter(plan, n)[name := Lookup(PlacedAfter(plan, n), name) + [a.pod]]
  {
    hide EffectiveRequests;
    StateOfPrefix(freeInit, plan, plan + [a], |plan|);
  }

  // ---------------------------------------------------------------- the placer

  method FindAdmissible(pod: Pod, req: Requests, candidates: seq<Node>, free: map<string, Resources>,
                        resident: map<string, seq<Pod>>, placed: map<string, seq<Pod>>) returns (admissible: seq<nat>)
    requires req == EffectiveRequests(pod)
    ensures admissible == AdmissibleIndices(pod, candidates, free, resident, placed, |candidates|)
  {
    hide EffectiveRequests, ToleratesTaints, MatchesNodeAffinity, AffinityOnNode;
    admissible := [];
    for ci := 0 to |candidates|
      invariant admissible == AdmissibleIndices(pod, candidates, free, resident, placed, ci)
    {
      var node := candidates[ci];
      if !LookupFree(free, node.name).Fits(req) { continue; }
      if !ToleratesTaints(pod, node) || !MatchesNodeAffinity(pod, node) { continue; }
      var ok := CheckAffinityOnNode(Occupants(node.name, resident, placed), [pod]);
      if !ok { continue; }
      admissible := admissible + [ci];
    }
  }

  /** Places the pods in the given order; None when some pod has no admissible candidate.
      freeAtEnd is the ledger when it returns. */
  method PlacePods(ordered: seq<Pod>, candidates: seq<Node>, freeInit: map<string, Resources>,
                   resident: map<string, seq<Pod>>)
    returns (r: Option<Combination>, ghost freeAtEnd: map<string, Resources>)
    ensures r.Some? ==> |r.value| == |ordered| && IsGreedy(ordered, candidates, freeInit, resident, r.value)
    ensures r.Some? ==> freeAtEnd == FreeAfter(freeInit, r.value, |ordered|)
    ensures r.None? ==> exists reached :: IsStuck(ordered, candidates, freeInit, resident, reached)
  {
    hide Choice, EffectiveRequests, AdmissibleIndices, Scores, FreeAfter, PlacedAfter;
    var free := freeInit;
    var placed: map<string, seq<Pod>> := map[];
    var plan: Combination := [];
    EmptyPlan(freeInit);
    for i := 0 to |ordered|
      invariant |plan| == i && IsGreedy(ordered, candidates, freeInit, resident, plan)
      invariant free == FreeAfter(freeInit, plan, i) && placed == PlacedAfter(plan, i)
    {
      var pod := ordered[i];
      var req := ComputePodRequests(pod);
      var admissible := FindAdmissible(pod, req, candidates, free, resident, placed);
      ChoiceByLoops(pod, candidates, free, resident, placed);
      if admissible == [] {
        assert IsStuck(ordered, candidates, freeInit, resident, plan);
        return None, free;
      }
      var scores := SchedulerScores(pod, req, candidates, admissible, free, resident, placed);
      var best := 0;
      for k := 0 to |scores|
        invariant best < |scores| && best == if k == 0 then 0 else FirstMax(scores, k)
      {
        if scores[k] > scores[best] { best := k; }
      }
      var target := candidates[admissible[best]];
      var a := Assignment(pod, target, None);
      StateOfPrefix(freeInit, plan, plan + [a], i);
      ExtendGreedy(ordered, candidates, freeInit, resident, plan, a);
      OneMoreStep(freeInit, plan, a);
      free := free[target.name := LookupFree(free, target.name).Minus(req)];
      placed := placed[target.name := Lookup(placed, target.name) + [pod]];
      plan := plan + [a];
    }
    return Some(plan), free;
  }

  lemma EmptyPlan(freeInit: map<string, Resources>)
    ensures FreeAfter(freeInit, [], 0) == freeInit && PlacedAfter([], 0) == map[]
  {
  }

  lemma ChoiceByLoops(pod: Pod, candidates: seq<Node>, free: map<string, Resources>,
                      resident: map<string, seq<Pod>>, placed: map<string, seq<Pod>>)
    ensures var adm := AdmissibleIndices(pod, candidates, free, resident, placed, |candidates|);
            Choice(pod, candidates, free, resident, placed)
            == if adm == [] then None
               else
                 var scores := Scores(pod, EffectiveRequests(pod), candidates, adm, free, resident, placed);
                 Some(adm[FirstMax(scores, |adm|)])
  {
  }

  // ---------------------------------------------------------------- what greedy plans guarantee

  /** The outcome is determined: two greedy plans agree as far as both go. */
  lemma {:induction false} GreedyIsDetermined(ordered: seq<Pod>, candidates: seq<Node>,
                                              freeInit: map<string, Resources>,
                                             resident: map<string, seq<Pod>>, p: Combination, q: Combination, n: nat)
    requires IsGreedy(ordered, candidates, freeInit, resident, p)
             && IsGreedy(ordered, candidates, freeInit, resident, q)
    requires n <= |p| && n <= |q|
    ensures forall i :: 0 <= i < n ==> p[i] == q[i]
  {
    hide Choice, FreeAfter, PlacedAfter;
    if n > 0 {
      GreedyIsDetermined(ordered, candidates, freeInit, resident, p, q, n - 1);
      StateOfPrefix(freeInit, p, q, n - 1);
      assert IsGreedyStep(ordered, candidates, freeInit, resident, p, n - 1);
      assert IsGreedyStep(ordered, candidates, freeInit, resident, q, n - 1);
    }
  }

  /** Where a complete plan exists the placement never gets stuck. */
  lemma {:induction false} CompleteMeansNotStuck(ordered: seq<Pod>, candidates: seq<Node>,
                                                 freeInit: map<string, Resources>,
                              resident: map<string, seq<Pod>>, p: Combination, q: Combination)
    requires IsGreedy(ordered, candidates, freeInit, resident, p) && |p| == |ordered|
    ensures !IsStuck(ordered, candidates, freeInit, resident, q)
  {
    hide Choice, FreeAfter, PlacedAfter;
    var n := |q|;
    if n < |ordered| && IsGreedy(ordered, candidates, freeInit, resident, q) {
      GreedyIsDetermined(ordered, candidates, freeInit, resident, p, q, n);
      StateOfPrefix(freeInit, p, q, n);
      assert IsGreedyStep(ordered, candidates, freeInit, resident, p, n);
    }
  }

  /** At every step the chosen node passes all the filters, given the steps before. */
  lemma {:induction false} GreedyStepIsAdmissible(ordered: seq<Pod>, candidates: seq<Node>,
                                                  freeInit: map<string, Resources>,
                               resident: map<string, seq<Pod>>, plan: Combination, i: nat)
    requires IsGreedy(ordered, candidates, freeInit, resident, plan) && i < |plan|
    ensures plan[i].pod == ordered[i] && plan[i].altNode == None
    ensures exists c :: 0 <= c < |candidates| && plan[i].node == candidates[c]
    ensures Admissible(ordered[i], EffectiveRequests(ordered[i]), plan[i].node,
                       FreeAfter(freeInit, plan, i), resident, PlacedAfter(plan, i))
  {
    hide Choice, FreeAfter, PlacedAfter, Admissible, EffectiveRequests;
    assert IsGreedyStep(ordered, candidates, freeInit, resident, plan, i);
    ChoiceIsAdmissible(ordered[i], candidates, FreeAfter(freeInit, plan, i), resident, PlacedAfter(plan, i));
  }

  /** No node that received a pod is left overcommitted. */
  lemma {:induction false} NoOvercommit(ordered: seq<Pod>, candidates: seq<Node>, freeInit: map<string, Resources>,
                                       resident: map<string, seq<Pod>>, plan: Combination, name: string, n: nat)
    requires IsGreedy(ordered, candidates, freeInit, resident, plan) && n <= |plan|
    requires exists i :: 0 <= i < n && plan[i].node.name == name
    ensures LookupFree(FreeAfter(freeInit, plan, n), name).cpu >= 0
    ensures LookupFree(FreeAfter(freeInit, plan, n), name).memory >= 0
  {
    hide EffectiveRequests, IsGreedy, ToleratesTaints, MatchesNodeAffinity, AffinityOnNode;
    if plan[n - 1].node.name == name {
      GreedyStepIsAdmissible(ordered, candidates, freeInit, resident, plan, n - 1);
    } else {
      NoOvercommit(ordered, candidates, freeInit, resident, plan, name, n - 1);
    }
  }
}
