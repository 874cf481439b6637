/** What preferred affinity does: pods that a pod prefers to be near attract it, pods it prefers to avoid
    repel it, and the choice follows. */
module Attraction {
  import opened Options
  import opened Sums
  import opened Kube
  import opened PodRequests
  import opened Scoring
  import opened Placement

  // ---------------------------------------------------------------- one occupant more

  /** A term of owner speaks of target, and both nodes are in one of its domains. */
  ghost predicate Meets(owner: Pod, target: Pod, t: WeightedAffinityTerm, a: Node, b: Node) {
    MatchesAffinityTerm(owner, target, t.term) && SameTopologyDomain(a, b, t.term.topologyKey)
  }

  ghost predicate MeetsNone(owner: Pod, target: Pod, terms: seq<WeightedAffinityTerm>, a: Node, b: Node) {
    forall k :: 0 <= k < |terms| ==> !Meets(owner, target, terms[k], a, b)
  }

  ghost predicate MeetsOnly(owner: Pod, target: Pod, terms: seq<WeightedAffinityTerm>, a: Node, b: Node, k: nat) {
    && k < |terms| && Meets(owner, target, terms[k], a, b)
    && forall j :: 0 <= j < |terms| && j != k ==> !Meets(owner, target, terms[j], a, b)
  }

  lemma {:induction false} WeightOfNone(owner: Pod, target: Pod, terms: seq<WeightedAffinityTerm>, a: Node, b: Node,
                                       n: nat)
    requires n <= |terms| && forall j :: 0 <= j < n ==> !Meets(owner, target, terms[j], a, b)
    ensures MatchedWeight(owner, target, terms, a, b, n) == 0
  {
    hide MatchesAffinityTerm, SameTopologyDomain;
    if n > 0 { WeightOfNone(owner, target, terms, a, b, n - 1); }
  }

  lemma {:induction false} WeightOfOnly(owner: Pod, target: Pod, terms: seq<WeightedAffinityTerm>, a: Node, b: Node,
                                       k: nat, n: nat)
    requires MeetsOnly(owner, target, terms, a, b, k) && k < n <= |terms|
    ensures MatchedWeight(owner, target, terms, a, b, n) == terms[k].weight
  {
    hide MatchesAffinityTerm, SameTopologyDomain;
    if n - 1 == k {
      WeightOfNone(owner, target, terms, a, b, k);
    } else {
      WeightOfOnly(owner, target, terms, a, b, k, n - 1);
    }
  }

  /** The four ways in which one of two pods can speak of the other. */
  datatype Side = Seeks | Avoids | IsSought | IsAvoided

  ghost function TermsOf(pod: Pod, occupant: Pod, side: Side): seq<WeightedAffinityTerm> {
    match side
    case Seeks => pod.preferredPodAffinity
    case Avoids => pod.preferredPodAntiAffinity
    case IsSought => occupant.preferredPodAffinity
    case IsAvoided => occupant.preferredPodAntiAffinity
  }

  /** Whose terms they are, and whom they speak of. */
  ghost predicate MeetsNoneOn(pod: Pod, occupant: Pod, side: Side, a: Node, b: Node) {
    if side.Seeks? || side.Avoids? then MeetsNone(pod, occupant, TermsOf(pod, occupant, side), a, b)
    else MeetsNone(occupant, pod, TermsOf(pod, occupant, side), a, b)
  }

  ghost predicate MeetsOnlyOn(pod: Pod, occupant: Pod, side: Side, a: Node, b: Node, k: nat) {
    if side.Seeks? || side.Avoids? then MeetsOnly(pod, occupant, TermsOf(pod, occupant, side), a, b, k)
    else MeetsOnly(occupant, pod, TermsOf(pod, occupant, side), a, b, k)
  }

  /** Of all terms of the two pods exactly one meets: the k-th of that side. */
  ghost predicate MeetsOnce(pod: Pod, occupant: Pod, side: Side, a: Node, b: Node, k: nat) {
    && MeetsOnlyOn(pod, occupant, side, a, b, k)
    && forall other: Side :: other != side ==> MeetsNoneOn(pod, occupant, other, a, b)
  }

  /** None does. */
  ghost predicate IsIndifferent(pod: Pod, occupant: Pod, a: Node, b: Node) {
    forall side: Side :: MeetsNoneOn(pod, occupant, side, a, b)
  }

  ghost function WeightOn(pod: Pod, occupant: Pod, side: Side, k: nat): int
    requires k < |TermsOf(pod, occupant, side)|
  {
    TermsOf(pod, occupant, side)[k].weight
  }

  lemma OneMeeting(pod: Pod, occupant: Pod, side: Side, a: Node, b: Node, k: nat)
    requires MeetsOnce(pod, occupant, side, a, b, k)
    ensures k < |TermsOf(pod, occupant, side)|
    ensures PairScore(pod, occupant, a, b)
         == if side.Seeks? || side.IsSought? then WeightOn(pod, occupant, side, k)
            else -WeightOn(pod, occupant, side, k)
  {
    hide MeetsNone, MeetsOnly, MatchedWeight;
    assert Side.Seeks != side ==> MeetsNoneOn(pod, occupant, Seeks, a, b);
    assert Side.Avoids != side ==> MeetsNoneOn(pod, occupant, Avoids, a, b);
    assert Side.IsSought != side ==> MeetsNoneOn(pod, occupant, IsSought, a, b);
    assert Side.IsAvoided != side ==> MeetsNoneOn(pod, occupant, IsAvoided, a, b);
    NoneIsZero(pod, occupant, pod.preferredPodAffinity, a, b);
    NoneIsZero(pod, occupant, pod.preferredPodAntiAffinity, a, b);
    NoneIsZero(occupant, pod, occupant.preferredPodAffinity, a, b);
    NoneIsZero(occupant, pod, occupant.preferredPodAntiAffinity, a, b);
    if side.Seeks? || side.Avoids? {
      OnlyIsWeight(pod, occupant, TermsOf(pod, occupant, side), a, b, k);
    } else {
      OnlyIsWeight(occupant, pod, TermsOf(pod, occupant, side), a, b, k);
    }
  }

  lemma NoneIsZero(owner: Pod, target: Pod, terms: seq<WeightedAffinityTerm>, a: Node, b: Node)
    ensures MeetsNone(owner, target, terms, a, b) ==> MatchedWeight(owner, target, terms, a, b, |terms|) == 0
  {
    hide Meets;
    if MeetsNone(owner, target, terms, a, b) { WeightOfNone(owner, target, terms, a, b, |terms|); }
  }

  lemma OnlyIsWeight(owner: Pod, target: Pod, terms: seq<WeightedAffinityTerm>, a: Node, b: Node, k: nat)
    requires MeetsOnly(owner, target, terms, a, b, k)
    ensures k < |terms| && MatchedWeight(owner, target, terms, a, b, |terms|) == terms[k].weight
  {
    WeightOfOnly(owner, target, terms, a, b, k, |terms|);
  }

  lemma Indifference(pod: Pod, occupant: Pod, a: Node, b: Node)
    requires IsIndifferent(pod, occupant, a, b)
    ensures PairScore(pod, occupant, a, b) == 0
  {
    hide MeetsNone, MatchedWeight;
    assert MeetsNoneOn(pod, occupant, Seeks, a, b) && MeetsNoneOn(pod, occupant, Avoids, a, b);
    assert MeetsNoneOn(pod, occupant, IsSought, a, b) && MeetsNoneOn(pod, occupant, IsAvoided, a, b);
    NoneIsZero(pod, occupant, pod.preferredPodAffinity, a, b);
    NoneIsZero(pod, occupant, pod.preferredPodAntiAffinity, a, b);
    NoneIsZero(occupant, pod, occupant.preferredPodAffinity, a, b);
    NoneIsZero(occupant, pod, occupant.preferredPodAntiAffinity, a, b);
  }

  // ---------------------------------------------------------------- the raw score of a node

  /** The plan has put one more pod on a node. */
  function WithOccupant(placed: map<string, seq<Pod>>, name: string, occupant: Pod): map<string, seq<Pod>> {
    placed[name := Lookup(placed, name) + [occupant]]
  }

  ghost predicate AreDistinct(candidates: seq<Node>) {
    forall i, j :: 0 <= i < j < |candidates| ==> candidates[i].name != candidates[j].name
  }

  lemma OneOccupantMore(pod: Pod, node: Node, other: Node, occupants: seq<Pod>, occupant: Pod)
    ensures OccupantsScore(pod, node, other, occupants + [occupant], |occupants| + 1)
         == OccupantsScore(pod, node, other, occupants, |occupants|) + PairScore(pod, occupant, node, other)
  {
    hide PairScore;
    SameOccupants(pod, node, other, occupants, occupants + [occupant], |occupants|);
  }

  lemma {:induction false} SameOccupants(pod: Pod, node: Node, other: Node, few: seq<Pod>, many: seq<Pod>, n: nat)
    requires n <= |few| && few <= many
    ensures OccupantsScore(pod, node, other, few, n) == OccupantsScore(pod, node, other, many, n)
  {
    hide PairScore;
    if n > 0 { SameOccupants(pod, node, other, few, many, n - 1); }
  }

  lemma CandidateGains(pod: Pod, node: Node, other: Node, target: string, resident: map<string, seq<Pod>>,
                       placed: map<string, seq<Pod>>, occupant: Pod)
    ensures var before := Occupants(other.name, resident, placed);
            var after := Occupants(other.name, resident, WithOccupant(placed, target, occupant));
            OccupantsScore(pod, node, other, after, |after|)
            == OccupantsScore(pod, node, other, before, |before|)
               + (if other.name == target then PairScore(pod, occupant, node, other) else 0)
  {
    hide PairScore, OccupantsScore;
    var before := Occupants(other.name, resident, placed);
    var after := Occupants(other.name, resident, WithOccupant(placed, target, occupant));
    if other.name == target {
      assert after == before + [occupant];
      OneOccupantMore(pod, node, other, before, occupant);
    } else {
      assert after == before;
    }
  }

  lemma {:induction false} RawScoreGains(pod: Pod, node: Node, candidates: seq<Node>, resident: map<string, seq<Pod>>,
                                        placed: map<string, seq<Pod>>, c: nat, occupant: Pod, n: nat)
    requires AreDistinct(candidates) && c < |candidates| && n <= |candidates|
    ensures InterPodScore(pod, node, candidates, resident, WithOccupant(placed, candidates[c].name, occupant), n)
         == InterPodScore(pod, node, candidates, resident, placed, n)
            + (if c < n then PairScore(pod, occupant, node, candidates[c]) else 0)
  {
    hide PairScore, OccupantsScore, Occupants, WithOccupant;
    if n > 0 {
      RawScoreGains(pod, node, candidates, resident, placed, c, occupant, n - 1);
      CandidateGains(pod, node, candidates[n - 1], candidates[c].name, resident, placed, occupant);
      assert n - 1 != c ==> candidates[n - 1].name != candidates[c].name;
    }
  }

  /** An occupant with one term that meets raises the raw score of the node by exactly its weight when it is
      one of affinity, and lowers it by exactly its weight when it is one of anti-affinity, whichever of the
      two pods the term belongs to. */
  lemma {:induction false} OccupantCounts(pod: Pod, node: Node, candidates: seq<Node>, resident: map<string, seq<Pod>>,
                                         placed: map<string, seq<Pod>>, c: nat, occupant: Pod, side: Side, k: nat)
    requires AreDistinct(candidates) && c < |candidates| && MeetsOnce(pod, occupant, side, node, candidates[c], k)
    ensures k < |TermsOf(pod, occupant, side)|
    ensures var before := InterPodScore(pod, node, candidates, resident, placed, |candidates|);
            var after := InterPodScore(pod, node, candidates, resident,
                                       WithOccupant(placed, candidates[c].name, occupant), |candidates|);
            match side
            case Seeks => after == before + pod.preferredPodAffinity[k].weight
            case Avoids => after == before - pod.preferredPodAntiAffinity[k].weight
            case IsSought => after == before + occupant.preferredPodAffinity[k].weight
            case IsAvoided => after == before - occupant.preferredPodAntiAffinity[k].weight
  {
    RawScoreGains(pod, node, candidates, resident, placed, c, occupant, |candidates|);
    OneMeeting(pod, occupant, side, node, candidates[c], k);
    hide InterPodScore, PairScore, MeetsOnce, WithOccupant, AreDistinct;
  }

  /** One with no term that meets leaves it as it is. */
  lemma {:induction false} OccupantIgnored(pod: Pod, node: Node, candidates: seq<Node>,
                                          resident: map<string, seq<Pod>>, placed: map<string, seq<Pod>>, c: nat,
                                          occupant: Pod)
    requires AreDistinct(candidates) && c < |candidates| && IsIndifferent(pod, occupant, node, candidates[c])
    ensures InterPodScore(pod, node, candidates, resident, WithOccupant(placed, candidates[c].name, occupant),
                          |candidates|)
         == InterPodScore(pod, node, candidates, resident, placed, |candidates|)
  {
    RawScoreGains(pod, node, candidates, resident, placed, c, occupant, |candidates|);
    Indifference(pod, occupant, node, candidates[c]);
    hide InterPodScore, PairScore, IsIndifferent, WithOccupant, AreDistinct;
  }

  // ---------------------------------------------------------------- one term more

  /** What the occupant is worth to the raw score of the node. */
  function Worth(pod: Pod, node: Node, candidates: seq<Node>, resident: map<string, seq<Pod>>,
                 placed: map<string, seq<Pod>>, c: nat, occupant: Pod): int
    requires c < |candidates|
  {
    InterPodScore(pod, node, candidates, resident, WithOccupant(placed, candidates[c].name, occupant), |candidates|)
    - InterPodScore(pod, node, candidates, resident, placed, |candidates|)
  }

  function WithTerm(pod: Pod, isAffinity: bool, t: WeightedAffinityTerm): Pod {
    if isAffinity then pod.(preferredPodAffinity := pod.preferredPodAffinity + [t])
    else pod.(preferredPodAntiAffinity := pod.preferredPodAntiAffinity + [t])
  }

  lemma {:induction false} SameWeight(owner: Pod, target: Pod, owner': Pod, target': Pod,
                                     terms: seq<WeightedAffinityTerm>, more: seq<WeightedAffinityTerm>,
                                     a: Node, b: Node, n: nat)
    requires n <= |terms| && terms <= more
    requires owner.namespace == owner'.namespace
    requires target.namespace == target'.namespace && target.labels == target'.labels
    ensures MatchedWeight(owner', target', more, a, b, n) == MatchedWeight(owner, target, terms, a, b, n)
  {
    hide SameTopologyDomain;
    if n > 0 { SameWeight(owner, target, owner', target', terms, more, a, b, n - 1); }
  }

  lemma OneTermMore(owner: Pod, target: Pod, owner': Pod, target': Pod, terms: seq<WeightedAffinityTerm>,
                    t: WeightedAffinityTerm, a: Node, b: Node)
    requires owner.namespace == owner'.namespace
    requires target.namespace == target'.namespace && target.labels == target'.labels
    ensures MatchedWeight(owner', target', terms + [t], a, b, |terms| + 1)
         == MatchedWeight(owner, target, terms, a, b, |terms|) + (if Meets(owner, target, t, a, b) then t.weight else 0)
  {
    SameWeight(owner, target, owner', target', terms, terms + [t], a, b, |terms|);
    hide SameTopologyDomain;
  }

  lemma PodTermCounts(pod: Pod, occupant: Pod, isAffinity: bool, t: WeightedAffinityTerm, a: Node, b: Node)
    ensures PairScore(WithTerm(pod, isAffinity, t), occupant, a, b)
         == PairScore(pod, occupant, a, b)
            + (if !Meets(pod, occupant, t, a, b) then 0 else if isAffinity then t.weight else -t.weight)
  {
    var pod' := WithTerm(pod, isAffinity, t);
    OneTermMore(pod, occupant, pod', occupant, if isAffinity then pod.preferredPodAffinity
                                               else pod.preferredPodAntiAffinity, t, a, b);
    WeightsStay(pod, occupant, pod', occupant, pod.preferredPodAffinity, a, b);
    WeightsStay(pod, occupant, pod', occupant, pod.preferredPodAntiAffinity, a, b);
    WeightsStay(occupant, pod, occupant, pod', occupant.preferredPodAffinity, a, b);
    WeightsStay(occupant, pod, occupant, pod', occupant.preferredPodAntiAffinity, a, b);
    hide MatchedWeight, Meets;
  }

  lemma OccupantTermCounts(pod: Pod, occupant: Pod, isAffinity: bool, t: WeightedAffinityTerm, a: Node, b: Node)
    ensures PairScore(pod, WithTerm(occupant, isAffinity, t), a, b)
         == PairScore(pod, occupant, a, b)
            + (if !Meets(occupant, pod, t, a, b) then 0 else if isAffinity then t.weight else -t.weight)
  {
    var occupant' := WithTerm(occupant, isAffinity, t);
    OneTermMore(occupant, pod, occupant', pod, if isAffinity then occupant.preferredPodAffinity
                                               else occupant.preferredPodAntiAffinity, t, a, b);
    WeightsStay(pod, occupant, pod, occupant', pod.preferredPodAffinity, a, b);
    WeightsStay(pod, occupant, pod, occupant', pod.preferredPodAntiAffinity, a, b);
    WeightsStay(occupant, pod, occupant', pod, occupant.preferredPodAffinity, a, b);
    WeightsStay(occupant, pod, occupant', pod, occupant.preferredPodAntiAffinity, a, b);
    hide MatchedWeight, Meets;
  }

  lemma WeightsStay(owner: Pod, target: Pod, owner': Pod, target': Pod, terms: seq<WeightedAffinityTerm>,
                    a: Node, b: Node)
    requires owner.namespace == owner'.namespace
    requires target.namespace == target'.namespace && target.labels == target'.labels
    ensures MatchedWeight(owner', target', terms, a, b, |terms|) == MatchedWeight(owner, target, terms, a, b, |terms|)
  {
    SameWeight(owner, target, owner', target', terms, terms, a, b, |terms|);
  }

  /** Every further term that meets adds its weight to the occupant's worth, or takes it off, whatever the
      other terms are. */
  lemma {:induction false} TermsAddUp(pod: Pod, node: Node, candidates: seq<Node>, resident: map<string, seq<Pod>>,
                                     placed: map<string, seq<Pod>>, c: nat, occupant: Pod, isAffinity: bool,
                                     t: WeightedAffinityTerm)
    requires AreDistinct(candidates) && c < |candidates|
    ensures Worth(WithTerm(pod, isAffinity, t), node, candidates, resident, placed, c, occupant)
         == Worth(pod, node, candidates, resident, placed, c, occupant)
            + (if !Meets(pod, occupant, t, node, candidates[c]) then 0 else if isAffinity then t.weight else -t.weight)
    ensures Worth(pod, node, candidates, resident, placed, c, WithTerm(occupant, isAffinity, t))
         == Worth(pod, node, candidates, resident, placed, c, occupant)
            + (if !Meets(occupant, pod, t, node, candidates[c]) then 0 else if isAffinity then t.weight else -t.weight)
  {
    var n := |candidates|;
    RawScoreGains(pod, node, candidates, resident, placed, c, occupant, n);
    RawScoreGains(WithTerm(pod, isAffinity, t), node, candidates, resident, placed, c, occupant, n);
    RawScoreGains(pod, node, candidates, resident, placed, c, WithTerm(occupant, isAffinity, t), n);
    PodTermCounts(pod, occupant, isAffinity, t, node, candidates[c]);
    OccupantTermCounts(pod, occupant, isAffinity, t, node, candidates[c]);
    hide InterPodScore, PairScore, WithTerm, WithOccupant, Meets, AreDistinct;
  }

  // ---------------------------------------------------------------- the choice

  /** Two candidates that admit the pod and differ in nothing the scores look at, as long as the occupant
      is not there. */
  ghost predicate AreEqual(pod: Pod, candidates: seq<Node>, free: map<string, Resources>,
                           resident: map<string, seq<Pod>>, placed: map<string, seq<Pod>>) {
    && |candidates| == 2 && candidates[0].name != candidates[1].name
    && HasCapacity(candidates[0]) && HasCapacity(candidates[1])
    && NodeAffinityWeight(pod, candidates[0], |pod.preferredNodeAffinity|)
       == NodeAffinityWeight(pod, candidates[1], |pod.preferredNodeAffinity|)
    && Scarcest(EffectiveRequests(pod), candidates[0], LookupFree(free, candidates[0].name))
       == Scarcest(EffectiveRequests(pod), candidates[1], LookupFree(free, candidates[1].name))
    && InterPodScore(pod, candidates[0], candidates, resident, placed, 2)
       == InterPodScore(pod, candidates[1], candidates, resident, placed, 2)
  }

  /** The normalized scores of two candidates of which i is raw by w above the other. */
  lemma TwoScaled(raw: seq<real>, i: nat, w: real)
    requires |raw| == 2 && i < 2 && w > 0.0 && raw[i] == raw[1 - i] + w
    ensures ScaledMinMax(raw)[i] == 100.0 && ScaledMinMax(raw)[1 - i] == 0.0
  {
    assert Highest(raw, 1) == raw[0] == Lowest(raw, 1);
    assert Highest(raw, 2) == raw[i] && Lowest(raw, 2) == raw[1 - i];
    FullRange(raw[1 - i], raw[i]);
  }

  lemma FullRange(lowest: real, highest: real)
    requires highest > lowest
    ensures ToRange(highest, lowest, highest) == 100.0 && ToRange(lowest, lowest, highest) == 0.0
  {
    var d := highest - lowest;
    assert 100.0 * d / d == 100.0 && 0.0 / d == 0.0;
  }

  lemma EqualNodeParts(pod: Pod, candidates: seq<Node>, admissible: seq<nat>)
    requires |candidates| == 2 && admissible == [0, 1]
    requires NodeAffinityWeight(pod, candidates[0], |pod.preferredNodeAffinity|)
          == NodeAffinityWeight(pod, candidates[1], |pod.preferredNodeAffinity|)
    ensures var scaled := ScaledToMax(RawNodeScores(pod, candidates, admissible)); scaled[0] == scaled[1]
  {
    hide NodeAffinityWeight, Highest, ToMax;
    var raw := RawNodeScores(pod, candidates, admissible);
    assert raw[0] == raw[1];
  }

  lemma PodPartGap(pod: Pod, candidates: seq<Node>, admissible: seq<nat>, resident: map<string, seq<Pod>>,
                   placed: map<string, seq<Pod>>, i: nat)
    requires |candidates| == 2 && admissible == [0, 1] && i < 2
    requires InterPodScore(pod, candidates[i], candidates, resident, placed, 2)
           > InterPodScore(pod, candidates[1 - i], candidates, resident, placed, 2)
    ensures var scaled := ScaledMinMax(RawPodScores(pod, candidates, admissible, resident, placed));
            scaled[i] == scaled[1 - i] + 100.0
  {
    hide InterPodScore, ScaledMinMax;
    var inter := RawPodScores(pod, candidates, admissible, resident, placed);
    TwoScaled(inter, i, inter[i] - inter[1 - i]);
  }

  lemma ScoreGap(pod: Pod, candidates: seq<Node>, admissible: seq<nat>, free: map<string, Resources>,
                 resident: map<string, seq<Pod>>, placed: map<string, seq<Pod>>, i: nat)
    requires |candidates| == 2 && admissible == [0, 1] && i < 2
    requires HasCapacity(candidates[0]) && HasCapacity(candidates[1])
    requires NodeAffinityWeight(pod, candidates[0], |pod.preferredNodeAffinity|)
          == NodeAffinityWeight(pod, candidates[1], |pod.preferredNodeAffinity|)
    requires Scarcest(EffectiveRequests(pod), candidates[0], LookupFree(free, candidates[0].name))
          == Scarcest(EffectiveRequests(pod), candidates[1], LookupFree(free, candidates[1].name))
    requires InterPodScore(pod, candidates[i], candidates, resident, placed, 2)
           > InterPodScore(pod, candidates[1 - i], candidates, resident, placed, 2)
    ensures var scores := Scores(pod, EffectiveRequests(pod), candidates, admissible, free, resident, placed);
            scores[i] == scores[1 - i] + 200.0
  {
    var req := EffectiveRequests(pod);
    ResourcesCountTheScarcest(req, candidates[0], free);
    ResourcesCountTheScarcest(req, candidates[1], free);
    EqualNodeParts(pod, candidates, admissible);
    PodPartGap(pod, candidates, admissible, resident, placed, i);
    hide NodeAffinityWeight, InterPodScore, ResourceTotal, Scarcest, EffectiveRequests, ScaledToMax, ScaledMinMax,
         RawNodeScores, RawPodScores;
  }

  lemma FirstMaxOfTwo(scores: seq<real>, i: nat)
    requires |scores| == 2 && i < 2 && scores[i] > scores[1 - i]
    ensures FirstMax(scores, 2) == i
  {
    assert FirstMax(scores, 1) == 0;
  }

  lemma ChoosesHigher(pod: Pod, candidates: seq<Node>, free: map<string, Resources>, resident: map<string, seq<Pod>>,
                      placed: map<string, seq<Pod>>, i: nat)
    requires i < 2 && |candidates| == 2
    requires AdmissibleIndices(pod, candidates, free, resident, placed, 2) == [0, 1]
    requires var scores := Scores(pod, EffectiveRequests(pod), candidates, [0, 1], free, resident, placed);
             scores[i] > scores[1 - i]
    ensures Choice(pod, candidates, free, resident, placed) == Some(i)
  {
    hide Scores, AdmissibleIndices, EffectiveRequests, FirstMax;
    var both: seq<nat> := [0, 1];
    FirstMaxOfTwo(Scores(pod, EffectiveRequests(pod), candidates, both, free, resident, placed), i);
  }

  lemma BothAdmit(pod: Pod, candidates: seq<Node>, free: map<string, Resources>, resident: map<string, seq<Pod>>,
                  placed: map<string, seq<Pod>>)
    requires |candidates| == 2
    requires forall j :: 0 <= j < 2 ==>
               Admissible(pod, EffectiveRequests(pod), candidates[j], free, resident, placed)
    ensures AdmissibleIndices(pod, candidates, free, resident, placed, 2) == [0, 1]
  {
    hide Admissible, EffectiveRequests;
    assert AdmissibleIndices(pod, candidates, free, resident, placed, 0) == [];
    assert AdmissibleIndices(pod, candidates, free, resident, placed, 1) == [0];
  }

  /** Of two candidates that admit the pod and are equal but for one occupant, in whatever order they are
      listed: when the only term that meets is one of affinity, of either pod, the occupant's node is
      chosen; when it is one of anti-affinity, the other one. */
  lemma {:induction false} OccupantDecides(pod: Pod, candidates: seq<Node>, free: map<string, Resources>,
                                          resident: map<string, seq<Pod>>, placed: map<string, seq<Pod>>,
                                          c: nat, occupant: Pod, side: Side, k: nat)
    requires AreEqual(pod, candidates, free, resident, placed) && c < 2
    requires forall j :: 0 <= j < 2 ==>
               Admissible(pod, EffectiveRequests(pod), candidates[j], free, resident,
                          WithOccupant(placed, candidates[c].name, occupant))
    requires MeetsOnce(pod, occupant, side, candidates[c], candidates[c], k)
    requires IsIndifferent(pod, occupant, candidates[1 - c], candidates[c])
    requires k < |TermsOf(pod, occupant, side)| && WeightOn(pod, occupant, side, k) > 0
    ensures Choice(pod, candidates, free, resident, WithOccupant(placed, candidates[c].name, occupant))
         == Some(if side.Seeks? || side.IsSought? then c else 1 - c)
  {
    var after := WithOccupant(placed, candidates[c].name, occupant);
    var i := if side.Seeks? || side.IsSought? then c else 1 - c;
    OccupantCounts(pod, candidates[c], candidates, resident, placed, c, occupant, side, k);
    OccupantIgnored(pod, candidates[1 - c], candidates, resident, placed, c, occupant);
    hide InterPodScore, MeetsOnce, IsIndifferent, WithOccupant, Admissible, EffectiveRequests, NodeAffinityWeight,
         Scarcest, Scores, Choice, AdmissibleIndices;
    var both: seq<nat> := [0, 1];
    ScoreGap(pod, candidates, both, free, resident, after, i);
    BothAdmit(pod, candidates, free, resident, after);
    ChoosesHigher(pod, candidates, free, resident, after, i);
  }
}
