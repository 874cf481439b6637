/** The parts of the Kubernetes objects the planner looks at, and the predicates the scheduling
    filters are made of. CPU is in milli-cores, memory in bytes. */
module Kube {
  import opened Options

  type Labels = map<string, string>

  /** Container requests; the API server admits no negative ones. */
  datatype Requests = Requests(cpu: nat, memory: nat)

  /** What is left of a node: goes below zero when a node is overcommitted. */
  datatype Resources = Resources(cpu: int, memory: int) {
    function Minus(r: Requests): Resources {
      Resources(cpu - r.cpu, memory - r.memory)
    }

    predicate Fits(r: Requests) {
      r.cpu <= cpu && r.memory <= memory
    }
  }

  datatype InitContainer = InitContainer(requests: Requests, sidecar: bool)

  datatype Operator = In | NotIn | Exists | DoesNotExist | OtherOperator

  datatype NodeRequirement = NodeRequirement(key: string, operator: Operator, values: seq<string>)

  type NodeSelectorTerm = seq<NodeRequirement>

  datatype PreferredNodeTerm = PreferredNodeTerm(weight: int, preference: NodeSelectorTerm)

  datatype TolerationOperator = TolerateExists | TolerateEqual | TolerateOther

  datatype Toleration = Toleration(key: string, operator: TolerationOperator, value: string, effect: string)

  datatype Taint = Taint(key: string, value: string, effect: string)

  /** A label selector: its printed form and the label sets it matches. A selector that is absent
      from an affinity term, or does not parse, matches nothing. */
  datatype LabelSelector = LabelSelector(text: string, matches: Labels -> bool)

  datatype AffinityTerm = AffinityTerm(selector: LabelSelector, namespaces: seq<string>, namespaceSelector: bool,
                                       topologyKey: string)

  datatype WeightedAffinityTerm = WeightedAffinityTerm(weight: int, term: AffinityTerm)

  datatype SpreadConstraint = SpreadConstraint(topologyKey: string, hard: bool, maxSkew: int,
                                               selector: Option<LabelSelector>, selectorText: string)

  datatype Phase = Pending | Running | Succeeded | Failed | Unknown

  /** An absent affinity section and an empty list of its terms behave alike, except for the
      required node affinity, where the empty list admits no node. */
  datatype Pod = Pod(
    namespace: string,
    name: string,
    labels: Labels,
    nodeName: string,
    phase: Phase,
    containers: seq<Requests>,
    initContainers: seq<InitContainer>,
    tolerations: seq<Toleration>,
    requiredNodeAffinity: Option<seq<NodeSelectorTerm>>,
    preferredNodeAffinity: seq<PreferredNodeTerm>,
    requiredPodAffinity: seq<AffinityTerm>,
    preferredPodAffinity: seq<WeightedAffinityTerm>,
    requiredPodAntiAffinity: seq<AffinityTerm>,
    preferredPodAntiAffinity: seq<WeightedAffinityTerm>,
    spread: seq<SpreadConstraint>)
  {
    predicate Finished() {
      phase == Succeeded || phase == Failed
    }

    function Key(): string {
      namespace + "/" + name
    }
  }

  datatype Node = Node(name: string, labels: Labels, taints: seq<Taint>, allocatable: Resources)

  /** What the API server lists. */
  datatype Cluster = Cluster(nodes: seq<Node>, pods: seq<Pod>)

  datatype Assignment = Assignment(pod: Pod, node: Node, altNode: Option<Node>)

  type Combination = seq<Assignment>

  // ---------------------------------------------------------------- listing

  /** The pods bound to a node, in list order. */
  function PodsOn(pods: seq<Pod>, nodeName: string): seq<Pod> {
    if pods == [] then []
    else (if pods[0].nodeName == nodeName then [pods[0]] else []) + PodsOn(pods[1..], nodeName)
  }

  predicate IsSystemPod(p: Pod) {
    || "kube-" <= p.namespace
    || ("k8s-app" in p.labels && p.labels["k8s-app"] == "kube-proxy")
  }

  function WithoutSystemPods(pods: seq<Pod>): seq<Pod> {
    if pods == [] then []
    else (if IsSystemPod(pods[0]) then [] else [pods[0]]) + WithoutSystemPods(pods[1..])
  }

  // ---------------------------------------------------------------- node filters

  predicate Tolerates(t: Toleration, taint: Taint) {
    && (t.effect == "" || t.effect == taint.effect)
    && t.key == taint.key
    && (t.operator.TolerateExists? || (t.operator.TolerateEqual? && t.value == taint.value))
  }

  predicate ToleratesTaints(pod: Pod, node: Node) {
    forall taint :: taint in node.taints ==> exists t :: t in pod.tolerations && Tolerates(t, taint)
  }

  predicate MatchesRequirement(r: NodeRequirement, labels: Labels) {
    match r.operator
    case In => r.key in labels && labels[r.key] in r.values
    case NotIn => !(r.key in labels && labels[r.key] in r.values)
    case Exists => r.key in labels
    case DoesNotExist => r.key !in labels
    case OtherOperator => false
  }

  predicate MatchesTerm(term: NodeSelectorTerm, labels: Labels) {
    forall r :: r in term ==> MatchesRequirement(r, labels)
  }

  predicate MatchesNodeAffinity(pod: Pod, node: Node) {
    pod.requiredNodeAffinity.Some? ==>
      exists term :: term in pod.requiredNodeAffinity.value && MatchesTerm(term, node.labels)
  }

  // ---------------------------------------------------------------- pod affinity

  /** Whether target is selected by a term that belongs to owner. */
  predicate MatchesAffinityTerm(owner: Pod, target: Pod, term: AffinityTerm) {
    && (term.namespaceSelector
        || (if term.namespaces != [] then target.namespace in term.namespaces else target.namespace == owner.namespace))
    && term.selector.matches(target.labels)
  }

  /** One direction of the required (anti-)affinity between a and b. The first affinity term alone
      decides; the anti-affinity terms are matched with the roles of the two pods exchanged. */
  predicate PairAllowed(a: Pod, b: Pod) {
    if a.requiredPodAffinity != [] then MatchesAffinityTerm(a, b, a.requiredPodAffinity[0])
    else forall i :: 0 <= i < |a.requiredPodAntiAffinity| ==> !MatchesAffinityTerm(b, a, a.requiredPodAntiAffinity[i])
  }

  predicate Compatible(a: Pod, b: Pod) {
    PairAllowed(a, b) && PairAllowed(b, a)
  }

  /** Every new pod gets on with every pod already there and with every other new one. */
  predicate AffinityOnNode(existing: seq<Pod>, newPods: seq<Pod>) {
    && (forall i, j :: 0 <= i < |newPods| && 0 <= j < |existing| ==> Compatible(newPods[i], existing[j]))
    && (forall i, j :: 0 <= i < j < |newPods| ==> Compatible(newPods[i], newPods[j]))
  }

  /** The nested loops of the check, pair by pair. */
  method CheckAffinityOnNode(existing: seq<Pod>, newPods: seq<Pod>) returns (ok: bool)
    ensures ok == AffinityOnNode(existing, newPods)
  {
    for i := 0 to |newPods|
      invariant forall p, q :: 0 <= p < i && 0 <= q < |existing| ==> Compatible(newPods[p], existing[q])
    {
      for j := 0 to |existing|
        invariant forall q :: 0 <= q < j ==> Compatible(newPods[i], existing[q])
      {
        if !PairAllowed(newPods[i], existing[j]) || !PairAllowed(existing[j], newPods[i]) {
          assert !Compatible(newPods[i], existing[j]);
          return false;
        }
      }
    }
    for i := 0 to |newPods|
      invariant forall p, q :: 0 <= p < i && p < q < |newPods| ==> Compatible(newPods[p], newPods[q])
    {
      for j := i + 1 to |newPods|
        invariant forall q :: i < q < j ==> Compatible(newPods[i], newPods[q])
      {
        if !PairAllowed(newPods[i], newPods[j]) || !PairAllowed(newPods[j], newPods[i]) {
          assert !Compatible(newPods[i], newPods[j]);
          return false;
        }
      }
    }
    return true;
  }

  // ---------------------------------------------------------------- what the predicates say

  /** A toleration must name the taint's key; its effect must be the taint's or none; its value counts only
      where it asks for an equal one, and an operator it does not know tolerates nothing. */
  lemma TolerationCases(taint: Taint, key: string, value: string, effect: string)
    ensures Tolerates(Toleration(taint.key, TolerateExists, value, ""), taint)
    ensures Tolerates(Toleration(taint.key, TolerateEqual, taint.value, taint.effect), taint)
    ensures forall t: Toleration :: t.key != taint.key || t.operator == TolerateOther ==> !Tolerates(t, taint)
    ensures effect != taint.effect ==>
              !Tolerates(Toleration(taint.key, TolerateExists, value, effect), taint) || effect == ""
    ensures value != taint.value ==> !Tolerates(Toleration(taint.key, TolerateEqual, value, effect), taint)
  {
  }

  /** NotIn is the opposite of In, and DoesNotExist of Exists; In asks for the key with one of the values. */
  lemma RequirementCases(key: string, values: seq<string>, labels: Labels)
    ensures MatchesRequirement(NodeRequirement(key, In, values), labels) <==>
            exists v :: v in values && (key, v) in labels.Items
    ensures MatchesRequirement(NodeRequirement(key, NotIn, values), labels) <==>
            !MatchesRequirement(NodeRequirement(key, In, values), labels)
    ensures MatchesRequirement(NodeRequirement(key, Exists, values), labels) <==> key in labels.Keys
    ensures MatchesRequirement(NodeRequirement(key, DoesNotExist, values), labels) <==> key !in labels.Keys
    ensures !MatchesRequirement(NodeRequirement(key, OtherOperator, values), labels)
  {
    if key in labels { assert (key, labels[key]) in labels.Items; }
  }

  /** Whoever matches the terms: pods that require no company and no distance get on with each other, and
      exchanging two pods never matters. */
  lemma CompatibilityCases(a: Pod, b: Pod)
    ensures Compatible(a, b) == Compatible(b, a)
    ensures (forall p :: p in {a, b} ==> p.requiredPodAffinity == [] && p.requiredPodAntiAffinity == []) ==>
              Compatible(a, b)
    ensures a.requiredPodAffinity != [] && !MatchesAffinityTerm(a, b, a.requiredPodAffinity[0]) ==> !Compatible(a, b)
    ensures a.requiredPodAffinity == [] ==>
              forall t :: t in a.requiredPodAntiAffinity && MatchesAffinityTerm(b, a, t) ==> !Compatible(a, b)
    ensures var indifferent := b.requiredPodAffinity == [] && b.requiredPodAntiAffinity == [];
            && (indifferent && a.requiredPodAffinity != [] ==>
                  (Compatible(a, b) <==> MatchesAffinityTerm(a, b, a.requiredPodAffinity[0])))
            && (indifferent && a.requiredPodAffinity == [] ==>
                  (Compatible(a, b) <==>
                   forall t :: t in a.requiredPodAntiAffinity ==> !MatchesAffinityTerm(b, a, t)))
  {
  }

  /** A term speaks of no pod that its selector does not match; without a namespace selector it speaks of the
      namespaces it names only, or of its owner's where it names none. */
  lemma AffinityTermCases(owner: Pod, target: Pod, term: AffinityTerm)
    ensures MatchesAffinityTerm(owner, target, term) ==> term.selector.matches(target.labels)
    ensures term.selector.matches(target.labels) && term.namespaceSelector ==> MatchesAffinityTerm(owner, target, term)
    ensures var plain := term.(namespaceSelector := false);
            && (target.namespace !in term.namespaces && term.namespaces != [] ==>
                  !MatchesAffinityTerm(owner, target, plain))
            && (target.namespace in term.namespaces && term.selector.matches(target.labels) ==>
                  MatchesAffinityTerm(owner, target, plain))
            && (term.namespaces == [] && term.selector.matches(target.labels) ==>
                  (MatchesAffinityTerm(owner, target, plain) <==> target.namespace == owner.namespace))
  {
  }
}
