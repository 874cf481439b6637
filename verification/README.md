# DREEM-K8s in Dafny

DREEM-K8s is an energy-aware autoscaler. A forecaster decides to add or drop one worker; three
reconcilers then choose the node and switch it on or off. This project models that logic and proves
what it guarantees.

| part | modules |
|---|---|
| Power curve and WAP | `Isotonic`, `PowerCurve` |
| Multi-criteria ranking | `Topsis`, `TopsisStages`, `Ranking`, `Weighting`, `Ties` |
| Scale-down planner | `Kube`, `PodRequests`, `Combinations`, `Scoring`, `Placement`, `Attraction`, `Ordering`, `Skew`, `TopologyScore`, `Filters`, `Migration`, `Slack`, `Completeness`, `WrongTurn`, `Incompleteness`, `AffinityLoss`, `Losses`, `Selection` |
| Scaling protocol | `Protocol` (one atomic step per actor), `ProtocolSteps`, `ProtocolSafety`, `ProtocolReach`, `ProtocolEnd`, `ProtocolFair`, `ProtocolRange`, `Store` (the same steps as methods on the stored objects, and whole runs of them) |
| Scaling decision | `Decision`, `Anticipation` |
| Forecaster's loop | `Scaling`, `Ticks`, `Cooldown`, `Forecaster` (the same steps as methods on the shared state) |
| Switching a node | `Drain`, `NodeHandler` (the same run as methods on the node's mark) |
| Helpers | `Sums`, `Sequences`, `Options` |

`dafny verify dfyconfig.toml` checks everything.

## Conventions

- Floats are `real`. The square root is a parameter that is only known to be non-negative and to square
  back. CPU is in milli-cores, memory in bytes.
- Label selectors are their printed form together with the label sets they match.
- Replies of the outside world (API calls, polls, clocks, metrics) are parameters, so every theorem
  holds for all of them.
- Child objects are named after their configuration and found by that name; names are not reused.
- The protocol takes each reconcile call and each creation by the forecaster as one atomic step. A
  scale-down may find no node, because none can be evacuated; a handling may fail before or after it
  switched its node. The forecaster is the only creator of configurations, only handlings change
  readiness, and anybody may mark or annotate nodes at any time.
- minNodes and maxNodes are fixed for a run, although the forecaster reads them again on every tick. A
  configuration records the bounds it was created with.
- A run of the forecaster's loop starts with its process: the shared state is in memory, so a restart
  forgets votes, the in-flight mark and the cooldown.

## Findings

The code is modelled as it is; where a promise fails, the exact condition under which it holds is proved.

- The controllers count every ready node without the control-plane label (`utils.go`), the forecaster
  and the selection also leave out nodes with the old master label. With two or more ready nodes that
  carry only the old label, a request to grow at minNodes is served as a scale-down and the cluster
  drops below minNodes (`ProtocolRange.RangeIsKeptIff`).
- The planner promises a plan unless none exists, and can miss one in three ways. A pod takes the node that a
  later pod cannot do without (`Incompleteness.TrapIsMissed`). The scores ignore hard spread constraints,
  and when the check at the end finds one broken no other placement is tried, not even for a single pod
  (`Incompleteness.LopsidedIsMissed`). And without candidates it returns no plan even when there are no
  pods to move (`Completeness.NoCandidates`). For all inputs it misses one exactly when there are neither
  candidates nor pods, or some step goes to a node where no feasible plan goes
  (`WrongTurn.CompleteIff`). Before the call one can tell for a single pod, by its first choice
  (`Completeness.OnePodIsComplete`). Nothing is missed with one candidate
  (`Completeness.OneCandidateIsComplete`), and, as long as the hard spread constraints have slack, where
  every candidate could take all the pods it suits or one candidate could take all pods
  (`Completeness.RoomyIsComplete`, `Completeness.SinkIsEnough`). Where every domain has a candidate, slack is
  exactly what keeps a constraint whatever the placement (`Slack.SlackIff`).
- A scale-up waits in Stable. When its selection fails, or its handling fails without having switched
  the node on, it stays there for good, keeps every later configuration from being created, and the
  autoscaler stops (`ProtocolReach.ScaleUpFinishesIff`, `ProtocolReach.FailedScaleUpBlocksForever`).
  Every cluster without legacy nodes below its upper bound can get there
  (`ProtocolEnd.EveryClusterCanBlock`), and it is the only way to get stuck (`ProtocolEnd.CanEndIff`). While
  the reconcilers keep being called, and the ranking of a running scale-up does not end in an error for
  ever, an open configuration ends or gets stuck like that (`ProtocolFair.FairRunEndsOrSticks`). When also
  handlings succeed and annotations stay it ends exactly when it does not ask for a worker that is not
  there (`ProtocolFair.FairRunEndsIff`).
- The ranking for a scale-up skips nodes without both annotations, so a worker that is off and not
  annotated leads there too.
- A load that is idle but for the last minutes divides by a zero baseline when its significance threshold
  is configured to be zero or less, and nothing catches the error (`Anticipation.ZeroBaselineIff`,
  `Anticipation.ZeroBaselineHappens`).
- Boosting a negative mean lowers it, so with the naive model the anticipation can lower the verdict
  (`Decision.AnticipationNeverLowersIff`, `Decision.AnticipationCanLower`).
- The cooldown after a reactive scale-up is skipped when its configuration ends in the middle of a
  tick, because the veto does not look at the in-flight mark (`Cooldown.CooldownKeptIff`).
- LeastAllocated and BalancedAllocation together depend on the scarcer resource alone
  (`Scoring.ResourcesCountTheScarcest`).
- The skew keys pods by name alone, so pods of different namespaces that share a name are confused
  and a skew can come out wrong (`Skew.VirtualMoveIsRealMove`, `Skew.VirtualMoveCanMiscount`); it is right
  exactly when they raise the largest and the smallest count alike (`Skew.SkewIsRightIff`).
- The ranking rounds to three decimals at every stage, so a node that is strictly better can tie with one
  listed before it, which is then chosen (`Ties.BetterNodeTiesIff`, `Ties.BetterNodeCanTie`). Of three or
  more candidates two can tie even though their rounded rows differ (`Ties.BetterRowCanTie`), unless one is
  the best or the worst in every criterion (`Ties.ExtremeNodeTiesIff`).
- A drain that fails uncordons the node even when an administrator had cordoned it, and a node whose
  power-off was accepted but that is not seen to go down in time stays cordoned
  (`Drain.FailureEndsUncordoned`, `Drain.FailedDrainUndoesCordon`).

Where code and documentation disagree the code is followed: the first required affinity term alone
decides, required anti-affinity terms are matched with the two pods exchanged, every taint effect is
hard, and the default thresholds of the forecast parameters (65 and 45) are inverted with respect to
their names; the decision theorems hold for thresholds in any order.

## Model

| member | source | states |
|---|---|---|
| Isotonic.IsotonicRegression | scripts/metricUpdate/main.py:175-190 | the pooling loop returns the least-squares non-decreasing fit (the max-min formula), keeps the sum, and merges fewer than n times |
| Isotonic.FitIsUnique | scripts/metricUpdate/main.py:175-190 | a sequence is the least-squares non-decreasing fit if and only if it is the max over starts of the min over ends of the means |
| Isotonic.CertifiedBeats | scripts/metricUpdate/main.py:175-190 | every other non-decreasing sequence loses by at least its squared distance to the fit, so the fit is strictly better |
| Isotonic.CertifiedIsMaxMin | scripts/metricUpdate/main.py:175-190 | a fit whose prefix sums certify it equals the max-min formula at every index |
| Isotonic.FitMonotone | scripts/metricUpdate/main.py:175-190 | raising any measured power never lowers any fitted value |
| Isotonic.FitAtLeast | scripts/metricUpdate/main.py:175-190 | no fitted value falls below a lower bound of the measured ones |
| Isotonic.FitAtMost | scripts/metricUpdate/main.py:175-190 | no fitted value exceeds an upper bound of the measured ones |
| PowerCurve.BuildPowerCurve | scripts/metricUpdate/main.py:193-198 | the curve holds the interpolated fit at each of the levels 0 to 100 and nothing else |
| PowerCurve.CurveNonDecreasing | scripts/metricUpdate/main.py:193-198 | more utilization never draws less power |
| PowerCurve.CurveInObservedRange | scripts/metricUpdate/main.py:193-198 | the curve stays within every range that holds the observed averages, also outside the observed levels |
| PowerCurve.CurveAtObservedLevel | scripts/metricUpdate/main.py:193-198 | at an observed level the curve is the fitted value of that level |
| PowerCurve.CurveIsLinear | scripts/metricUpdate/main.py:193-198 | between two neighbouring observed levels the curve is the straight line through its values there |
| PowerCurve.CurveIsFlatOutside | scripts/metricUpdate/main.py:193-198 | below the least and above the greatest observed level the curve is constant |
| PowerCurve.CurveMonotone | scripts/metricUpdate/main.py:193-198 | raising any observed average never lowers the curve anywhere |
| PowerCurve.WapIsMeanPower | scripts/metricUpdate/main.py:128-134 | the histogram-weighted power is the mean over instants of the curve at each instant's level |
| PowerCurve.WapInCurveRange | scripts/metricUpdate/main.py:205-211 | before the final rounding the WAP lies between the least and the greatest power of the curve |
| PowerCurve.LargerNodeLowerLevel | scripts/metricUpdate/main.py:122-125 | the same demand never puts a larger node at a higher level |
| PowerCurve.LevelIs | scripts/metricUpdate/main.py:122-125 | the level of an instant is l exactly when the demand is, up to a billionth, between l and l + 1 percent of the capacity; 0 and 100 take the rest |
| PowerCurve.WapIsMeanDemandPower | scripts/metricUpdate/main.py:205-211 | the WAP of a node is, to the thousandth, the mean over the instants of its curve at the level the shared demand induces |
| PowerCurve.WapAntitoneInCapacity | scripts/metricUpdate/main.py:334-342 | for one curve and one shared demand the rounded WAP never increases with the capacity |
| PowerCurve.WapsOrderedByCapacity | scripts/metricUpdate/main.py:205-211 | with one demand for all nodes, exactly the nodes with a curve and a capacity get a WAP, and of two nodes with one curve the larger never gets the larger WAP |
| Topsis.DominanceRespected | operators/internal/controller/selection_utils.go:1783-1822 | a node at least as good in every criterion never gets a lower closeness, through all roundings to three decimals, for non-negative weights |
| Topsis.UnitDoesNotMatter | operators/internal/controller/selection_utils.go:1783-1822 | rescaling one criterion by a positive constant changes no closeness |
| Topsis.ClosenessOrder | operators/internal/controller/selection_utils.go:1993-2011 | nearer to the ideal and farther from the negative ideal never lowers the closeness, also when both separations are zero |
| TopsisStages.ClosenessIsTopsis | operators/internal/controller/selection_utils.go:1663-1707 | the closeness is the one the stages of TOPSIS describe, each told as a relation: column length, weight, best and worst, distances, share, and the thousandth nearest to each |
| Ranking.NormalizeMatrix | operators/internal/controller/selection_utils.go:1783-1822 | the loops compute each entry divided by the root of its column's sum of squares, zero columns as they are |
| Ranking.WeightMatrix | operators/internal/controller/selection_utils.go:1849-1882 | the loops compute each normalised entry times its weight, rounded to three decimals |
| Ranking.CalculateIdealSolutions | operators/internal/controller/selection_utils.go:1901-1937 | per criterion, the best and the worst value by its direction |
| Ranking.CalculateSeparation | operators/internal/controller/selection_utils.go:1965-1991 | the Euclidean distance of each alternative to a reference row |
| Ranking.CalculateCloseness | operators/internal/controller/selection_utils.go:1663-1707 | the stages chained: one closeness per alternative |
| Ranking.SortNodesByCloseness | operators/internal/controller/selection_utils.go:2013-2027 | the bubble sort yields the stable descending ranking: descending, and every class of equal closeness in its original order |
| Ranking.RankingIsUnique | operators/internal/controller/selection_utils.go:2013-2027 | descending order and the classes determine the ranking |
| Ranking.RankingIsPermutation | operators/internal/controller/selection_utils.go:2013-2027 | the ranking is a permutation of the alternatives |
| Ranking.HeadIsFirstBest | operators/internal/controller/selection_utils.go:2013-2027 | the ranking is headed by the first alternative of maximal closeness |
| Ranking.ApplyTopsis | operators/internal/controller/selection_utils.go:1663-1707 | the whole scale-down ranking is the stable ranking of the closeness values |
| Ranking.ApplyTopsisScaleUp | operators/internal/controller/selection_utils.go:1710-1754 | the same for scale-up, with its two criteria |
| Ranking.BetterNodeScoresHigher | operators/internal/controller/selection_utils.go:1663-1707 | in the seven criteria of the scale-down, a node at least as good never scores lower |
| Ranking.ChosenNodeIsUndominated | operators/internal/controller/selection_utils.go:1663-1707 | no candidate listed before the chosen node is at least as good in every criterion, and one listed after it that is has the same closeness |
| Weighting.PowerCycleIgnored | operators/internal/controller/selection_utils.go:1849-1882 | with no weight on the power cycle, changing it for any candidate changes no closeness |
| Weighting.PowerCycleDecides | operators/internal/controller/selection_utils.go:1663-1707 | with all weight on the power cycle, a candidate with a lower value than all others, also after the roundings, is ranked first, as long as no two rounded values are two apart |
| Weighting.EnergyProfileIgnored | operators/internal/controller/selection_utils.go:1849-1882 | with no weight on the energy profile, changing it for any candidate changes no closeness |
| Weighting.EnergyProfileDecides | operators/internal/controller/selection_utils.go:1663-1707 | with all weight on the energy profile, a candidate with a higher value than all others, also after the roundings, is ranked first, as long as no two rounded values are two apart |
| Weighting.NodeAffinityIgnored | operators/internal/controller/selection_utils.go:1849-1882 | with no weight on the node affinity, changing it for any candidate changes no closeness |
| Weighting.NodeAffinityDecides | operators/internal/controller/selection_utils.go:1663-1707 | with all weight on the node affinity, a candidate with a lower value than all others, also after the roundings, is ranked first, as long as no two rounded values are two apart |
| Weighting.PodAffinityIgnored | operators/internal/controller/selection_utils.go:1849-1882 | with no weight on the pod affinity, changing it for any candidate changes no closeness |
| Weighting.PodAffinityDecides | operators/internal/controller/selection_utils.go:1663-1707 | with all weight on the pod affinity, a candidate with a lower value than all others, also after the roundings, is ranked first, as long as no two rounded values are two apart |
| Weighting.PodAntiAffinityIgnored | operators/internal/controller/selection_utils.go:1849-1882 | with no weight on the pod anti-affinity, changing it for any candidate changes no closeness |
| Weighting.PodAntiAffinityDecides | operators/internal/controller/selection_utils.go:1663-1707 | with all weight on the pod anti-affinity, a candidate with a lower value than all others, also after the roundings, is ranked first, as long as no two rounded values are two apart |
| Weighting.RunningPodsIgnored | operators/internal/controller/selection_utils.go:1849-1882 | with no weight on the number of running pods, changing it for any candidate changes no closeness |
| Weighting.RunningPodsDecides | operators/internal/controller/selection_utils.go:1663-1707 | with all weight on the number of running pods, a candidate with a lower value than all others, also after the roundings, is ranked first, as long as no two rounded values are two apart |
| Weighting.TopologySpreadIgnored | operators/internal/controller/selection_utils.go:1849-1882 | with no weight on the topology spread, changing it for any candidate changes no closeness |
| Weighting.TopologySpreadDecides | operators/internal/controller/selection_utils.go:1663-1707 | with all weight on the topology spread, a candidate with a lower value than all others, also after the roundings, is ranked first, as long as no two rounded values are two apart |
| Weighting.SmallWeightsAreNear | operators/internal/controller/selection_utils.go:1783-1882 | with a weight of at most one, no two rounded values of a criterion are two apart |
| Weighting.PowerCycleIgnoredScaleUp | operators/internal/controller/selection_utils.go:1824-1847 | of the two scale-up criteria: with no weight on the power cycle, changing it changes no closeness |
| Weighting.EnergyProfileIgnoredScaleUp | operators/internal/controller/selection_utils.go:1824-1847 | with no weight on the energy profile, changing it changes no closeness |
| Weighting.PowerCycleDecidesScaleUp | operators/internal/controller/selection_utils.go:1710-1754 | with all weight on the power cycle, the lowest one, also after the roundings, is ranked first, under the same condition |
| Weighting.EnergyProfileDecidesScaleUp | operators/internal/controller/selection_utils.go:1710-1754 | with all weight on the energy profile, the lowest one, also after the roundings, is ranked first, under the same condition |
| Ties.BetterNodeTiesIff | operators/internal/controller/selection_utils.go:1663-1707 | of two candidates a later, better one ties with the earlier one if and only if the roundings to three decimals make their weighted rows equal |
| Ties.BetterNodeCanTie | operators/internal/controller/selection_utils.go:1783-1822 | two nodes alike but for a draw of 1000 and 1001 tie, whatever the weights |
| Ties.ExtremeNodeTiesIff | operators/internal/controller/selection_utils.go:1901-2011 | among any number of candidates whose separations sum to less than two: one that is the best in every criterion, or the worst in every criterion, ties with another if and only if their rounded rows are equal |
| Ties.BetterRowCanTie | operators/internal/controller/selection_utils.go:1965-2011 | three candidates: two of them differ in their rounded rows, one being better, and still tie at the head of the ranking, because the separations are rounded too |
| Kube.CheckAffinityOnNode | operators/internal/controller/selection_utils.go:780-807 | true exactly when every new pod is compatible, in both directions, with every resident and every other new pod |
| Kube.CompatibilityCases | operators/internal/controller/selection_utils.go:809-839 | exchanging two pods never matters; with a pod that requires nothing another one gets on exactly when the first company it requires is there or, where it requires none, no term of its required distance speaks of itself |
| Kube.AffinityTermCases | operators/internal/controller/selection_utils.go:1331-1352 | a term speaks of no pod its selector does not match, and without a namespace selector of the namespaces it names only, or of its owner's where it names none |
| Kube.TolerationCases | operators/internal/controller/selection_utils.go:683-716 | a toleration must name the key and the effect, or no effect, of the taint; its value counts only where it asks for an equal one |
| Kube.RequirementCases | operators/internal/controller/selection_utils.go:623-650 | NotIn is the opposite of In and DoesNotExist of Exists; an unknown operator matches nothing |
| PodRequests.ComputePodRequests | operators/internal/controller/selection_utils.go:150-190 | the single pass computes the peak of a simulated pod start (init containers in order, sidecars staying, then app containers), CPU and memory apart |
| PodRequests.InitPeak | operators/internal/controller/selection_utils.go:150-190 | the peak of the init phase is the larger of the pass's floor and the running sidecars |
| PodRequests.PeakIsLargest | operators/internal/controller/selection_utils.go:150-190 | what is reserved is the most that runs at once at any moment of the start: an init container beside the sidecars before it, or all app containers beside all sidecars |
| PodRequests.DimensionsAreApart | operators/internal/controller/selection_utils.go:150-190 | exchanging CPU and memory in every container exchanges the result, and a pod that requests no memory is reserved none |
| PodRequests.AppRequestsAtMostEffective | operators/internal/controller/selection_utils.go:508-521 | the effective request is never below the sum of the app containers |
| PodRequests.NodeFreeResources | operators/internal/controller/selection_utils.go:202-222 | allocatable minus the effective requests of the unfinished pods bound to the node, hence never more than allocatable |
| PodRequests.OnePodLess | operators/internal/controller/selection_utils.go:202-222 | an empty node is all free; one more pod takes its effective requests from the node it is bound to, and from no other, unless it is finished |
| PodRequests.PodsOnAreFiltered | operators/internal/controller/selection_utils.go:202-222 | the pods on a node are exactly those bound to it, each once and in order |
| PodRequests.SystemPodsAreFiltered | operators/internal/controller/selection_utils.go:766-778 | left out are exactly the pods of a namespace that starts with kube- and the kube-proxy, the rest in order |
| Combinations.Pow | operators/internal/controller/selection_utils.go:119-128 | for a base and an exponent of zero or more, success exactly when the power fits in 64 bits, with the power as result; every product formed stays in range |
| Combinations.GenerateCombinations | operators/internal/controller/selection_utils.go:51-91 | within its limit, one combination per index below n to the p, each the base-n digits of its index; otherwise the sample |
| Combinations.EveryAssignmentOnce | operators/internal/controller/selection_utils.go:51-91 | every function from pods to node indices is enumerated at exactly one index |
| Combinations.DigitsDetermine | operators/internal/controller/selection_utils.go:51-91 | two indices with the same digits are equal |
| Scoring.InterPodAffinityScore | operators/internal/controller/selection_utils.go:423-451 | the weighted matches, both ways, with the occupants of every candidate in the same topology domain |
| Scoring.DomainCases | operators/internal/controller/selection_utils.go:454-462 | a node shares its host with itself alone; by any other label a domain is the nodes that carry one value of it |
| Attraction.OccupantCounts | operators/internal/controller/selection_utils.go:423-451 | one occupant more raises the raw score of a node whose domain holds it by exactly the weight of the one affinity term that speaks of it, and lowers it by that of an anti-affinity term, whichever of the two pods has the term |
| Attraction.OccupantIgnored | operators/internal/controller/selection_utils.go:423-451 | an occupant that no term speaks of in a shared domain changes nothing |
| Attraction.TermsAddUp | operators/internal/controller/selection_utils.go:442-451 | one term more, of either pod, adds its weight to what an occupant is worth, or takes it away |
| Attraction.OccupantDecides | operators/internal/controller/selection_utils.go:318-371 | of two otherwise equal candidates the pod goes to the one whose domain holds a pod it seeks, and away from the one that holds a pod it avoids |
| Losses.WeightIsTotal | operators/internal/controller/selection_utils.go:1300-1310 | a node is worth the total weight of the preferred terms it satisfies |
| Scoring.ScaleToMax | operators/internal/controller/selection_utils.go:485-495 | in place: the highest score becomes 100, all zero stays zero |
| Scoring.ScaleMinMax | operators/internal/controller/selection_utils.go:497-506 | in place: 0 at the lowest and 100 at the highest, all equal becomes zero |
| Scoring.ScaledByGreatest | operators/internal/controller/selection_utils.go:485-495 | every value becomes its percentage of the greatest one |
| Scoring.ScaledInRange | operators/internal/controller/selection_utils.go:497-506 | every value becomes its percentage of the way from the smallest to the greatest |
| Scoring.ScoreIsMadeOf | operators/internal/controller/selection_utils.go:397-416 | a score is the resource score plus twice the percentage of the greatest node affinity and twice the way of the pod affinity |
| Scoring.FreeShareIs | operators/internal/controller/selection_utils.go:465-483 | the free share times what the node has is what the request leaves free, never less than nothing or more than all |
| Scoring.SchedulerScores | operators/internal/controller/selection_utils.go:397-416 | the sum of the four plugin scores, for the admissible candidates in order |
| Scoring.ScoreBetween | operators/internal/controller/selection_utils.go:397-416 | every score lies between 0 and 600, whatever the raw scores |
| Scoring.ResourcesCountTheScarcest | operators/internal/controller/selection_utils.go:465-477 | the two resource scores together are 100 times one plus the free fraction of the scarcer resource |
| Scoring.BetterCandidateScoresHigher | operators/internal/controller/selection_utils.go:397-416 | a candidate that offers at least as much in node affinity, pod affinity and its scarcer resource never scores lower, through both normalizations |
| Placement.PlacePods | operators/internal/controller/selection_utils.go:318-371 | a plan exactly as long as the order in which every pod went to the greedy choice given the steps before, or none when some pod has no admissible candidate; the input maps are untouched |
| Placement.ChoiceIsAdmissible | operators/internal/controller/selection_utils.go:318-371 | a pod is placed exactly when some candidate is admissible, and then on one of those |
| Placement.ChoiceIsFirstBest | operators/internal/controller/selection_utils.go:318-371 | on the first admissible candidate of maximal score |
| Placement.GreedyStepIsAdmissible | operators/internal/controller/selection_utils.go:318-371 | at every step the chosen node passes resources, taints, node affinity and pod affinity, given the steps before |
| Placement.LedgerBalances | operators/internal/controller/selection_utils.go:318-371 | at every step free plus the requests placed equals the initial free, and the placed map holds exactly the pods placed |
| Placement.NoOvercommit | operators/internal/controller/selection_utils.go:318-371 | no node that received a pod goes negative in CPU or memory |
| Placement.GreedyIsDetermined | operators/internal/controller/selection_utils.go:318-371 | the greedy plan is unique |
| Placement.CompleteMeansNotStuck | operators/internal/controller/selection_utils.go:318-371 | where a complete greedy plan exists the placer never gives up |
| Ordering.OrderIsStableSort | operators/internal/controller/selection_utils.go:297-313 | the order for placement is sorted, a permutation, and stable |
| Ordering.LargestComesFirst | operators/internal/controller/selection_utils.go:297-313 | pods that prefer no company come before those that do, or after them; within either kind the larger CPU request first, then the larger memory request |
| Ordering.OrdersAreSwappedBlocks | operators/internal/controller/selection_utils.go:297-313 | the two orders are the same two blocks exchanged, with the same inner order |
| Skew.CalculateRealSkew | operators/internal/controller/selection_utils.go:925-1008 | the loops compute max minus min over the eligible domains of the counts after the virtual move |
| Skew.CountsAreSizes | operators/internal/controller/selection_utils.go:925-984 | the domains are the label values of the nodes, and each count is the number of unfinished selected pods that stay plus that of the planned ones that come |
| Skew.SkewIsUnique | operators/internal/controller/selection_utils.go:985-1008 | the skew of given counts is unique |
| Skew.VirtualMoveGap | operators/internal/controller/selection_utils.go:925-1008 | per domain, the real move exceeds the virtual one by the live counted pods that share a planned pod's name without being planned |
| Skew.VirtualMoveIsRealMove | operators/internal/controller/selection_utils.go:925-1008 | the virtual counts equal the counts after really rebinding the pods if and only if there is no such pod |
| Skew.SkewOfPlanIsSkewAfterMove | operators/internal/controller/selection_utils.go:925-1008 | without such a pod the skew computed for the plan is the skew of the cluster after the move |
| Skew.SkewIsRightIff | operators/internal/controller/selection_utils.go:925-1008 | the skew computed for a plan is the skew after the real move if and only if such pods raise the largest and the smallest count by the same amount |
| Skew.VirtualMoveCanMiscount | operators/internal/controller/selection_utils.go:933-937 | two running pods of one name in two namespaces: planning one gives skew 1 where the move leaves skew 0 |
| TopologyScore.GetTopologySpreadScore | operators/internal/controller/selection_utils.go:2055-2091 | the sum over distinct constraints of the degradation, each counted once |
| TopologyScore.ScoreIsTotalRise | operators/internal/controller/selection_utils.go:2055-2091 | the score is the total by which the plan raises the skews, before to after, of the distinct constraints of its pods |
| TopologyScore.KeyTells | operators/internal/controller/selection_utils.go:2055-2091 | two constraints count as one exactly when they agree in topology key and selector, since a topology key has no bar |
| TopologyScore.ScoreIgnoresOrder | operators/internal/controller/selection_utils.go:2055-2091 | the score does not depend on the order of the plan, when equal constraint keys mean equal selectors |
| Filters.CheckResources | operators/internal/controller/selection_utils.go:528-577 | keeps exactly the combinations in which every pod fits what the pods before it left of its node |
| Filters.FitsIffTogether | operators/internal/controller/selection_utils.go:528-577 | the pod-by-pod test passes exactly when, for every node, the app requests of all the pods sent there fit its allocatable resources together |
| Filters.CheckTaints | operators/internal/controller/selection_utils.go:664-682 | keeps exactly the combinations in which every pod tolerates its node's taints, in order |
| Filters.CheckNodeAffinity | operators/internal/controller/selection_utils.go:581-598 | keeps exactly those in which every node matches the required node affinity |
| Filters.CheckInterPodAffinity | operators/internal/controller/selection_utils.go:722-764 | keeps exactly those in which every destination node admits its arrivals |
| Filters.CheckTopologySpreadConstraints | operators/internal/controller/selection_utils.go:866-923 | keeps exactly those in which no hard constraint's skew exceeds its bound |
| Filters.SurvivorsIff | operators/internal/controller/selection_utils.go:523-923 | the five filters, each on what the one before has kept, keep exactly the combinations that pass each of them |
| Filters.PassesAllIff | operators/internal/controller/selection_utils.go:528-923 | they keep a combination exactly when the app requests of the pods sent to each node fit it, every pod suits its node and gets on with everyone it meets there, residents and arrivals, and no hard constraint exceeds its bound |
| Filters.AffinityHoldsIff | operators/internal/controller/selection_utils.go:722-764 | the pod affinity filter asks exactly that every pod gets on with the residents of its node that are no system pods and with the other pods sent there |
| Migration.BuildMigrationPlan | operators/internal/controller/selection_utils.go:245-291 | a plan is returned if and only if there are candidates and the greedy placement in the order with partners first is complete and passes the spread check; then it is that placement with the destinations of the opposite order, or without where that one is blocked |
| Migration.AltNodeIsOppositePlacement | operators/internal/controller/selection_utils.go:270-291 | whenever the opposite order has a placement every planned pod records an alternative, and with unique pod keys it is that pod's node there |
| Migration.PlacementIsEnumerated | operators/internal/controller/selection_utils.go:51-91 | the plan is one of the enumerated assignments of the ordered pods |
| Migration.PlacementSurvivesFilters | operators/internal/controller/selection_utils.go:528-807 | the plan passes the batch filters on resources, taints, node affinity and pod affinity |
| Migration.PlanRefinesEnumeration | operators/internal/controller/selection_utils.go:245-371 | the greedy planner refines enumerate-and-filter: its plan is in the enumeration and survives the chain of the five batch filters |
| Completeness.FoundIsFeasible | operators/internal/controller/selection_utils.go:224-225 | what the planner finds satisfies every hard constraint at once: effective requests against what is free, taints, node affinity, pod affinity, spread |
| Completeness.NoCandidates | operators/internal/controller/selection_utils.go:246-248 | without candidates no plan is returned, and only for no pods is there one |
| WrongTurn.CompleteIff | operators/internal/controller/selection_utils.go:224-225 | for all inputs: a plan is returned exactly when there is one, if and only if the placer takes no wrong turn (a step to the best-scored node that no feasible plan takes, after steps that one takes) and there are candidates or pods |
| WrongTurn.MissesIff | operators/internal/controller/selection_utils.go:318-371 | a feasible plan is missed if and only if the placer takes a wrong turn |
| Slack.SlackKeepsSpread | operators/internal/controller/selection_utils.go:874-923 | slack in the counts before the move, for every hard constraint of the pods: no placement breaks one |
| Slack.SlackIff | operators/internal/controller/selection_utils.go:925-1008 | where every domain has a candidate, no placement can break a constraint if and only if it has slack |
| Completeness.RoomyIsComplete | operators/internal/controller/selection_utils.go:224-225 | where every candidate could take all the pods it suits and the hard spread constraints have slack, a plan is returned if and only if there are candidates and a feasible plan |
| Completeness.OnePodIsComplete | operators/internal/controller/selection_utils.go:281-288 | one pod: a plan is returned if and only if the first best candidate keeps its spread, there is one if and only if some suiting candidate does, and none is missed if and only if the first best one does or no suiting one does |
| Completeness.OneCandidateIsComplete | operators/internal/controller/selection_utils.go:224-225 | one candidate: a plan is returned if and only if sending all pods there is feasible |
| Completeness.SinkIsEnough | operators/internal/controller/selection_utils.go:224-225 | one candidate that could take every pod at once, and slack, are enough for a plan, whatever the other candidates are |
| Incompleteness.TrapIsMissed | operators/internal/controller/selection_utils.go:318-371 | in every cluster with such nodes and pods: the first pod takes the node the second cannot do without, the placer is blocked, no plan is returned, and a feasible one exists |
| Incompleteness.TrapExists | operators/internal/controller/selection_utils.go:318-371 | such a cluster exists: two pods of two cores to be moved off a drained node, one tied to a disk that only the roomier of the other two nodes has |
| Incompleteness.LopsidedIsMissed | operators/internal/controller/selection_utils.go:281-288 | in every cluster with such a pod: the scores send it where it breaks its spread, the check at the end rejects that, no plan is returned, and the other node would keep it |
| Incompleteness.LopsidedExists | operators/internal/controller/selection_utils.go:281-288 | such a cluster exists: one pod that fits both nodes of two zones, with a slack that falls short by no more than one |
| AffinityLoss.GetPreferredInterPodAffinity | operators/internal/controller/selection_utils.go:1400-1445 | half the sum, rounded up, of the weights lost over both placement orders |
| AffinityLoss.NoLossIff | operators/internal/controller/selection_utils.go:1400-1445 | the loss is zero exactly when every satisfied preference survives in both orders, and never exceeds the weight of all preferences on the node |
| AffinityLoss.LossIsSymmetric | operators/internal/controller/selection_utils.go:1393-1445 | exchanging the two orders changes nothing |
| AffinityLoss.LossOfOneOrder | operators/internal/controller/selection_utils.go:1393-1445 | when the orders agree, or the second has no placement, the loss is that of the one order |
| Losses.ExpectedLossIsMean | operators/internal/controller/selection_utils.go:1400-1445 | the loss is half the total weight, over both orders, of the preferences the destinations break, each counted once, an odd half rounded up |
| AffinityLoss.GetPreferredNodeAffinity | operators/internal/controller/selection_utils.go:1368-1389 | half the sum, rounded up, of the node weights lost over both placement orders |
| AffinityLoss.NoNodeLossIff | operators/internal/controller/selection_utils.go:1368-1389 | the loss is zero exactly when no pod is worse off on either destination |
| Losses.ExpectedNodeLossIsMean | operators/internal/controller/selection_utils.go:1368-1389 | the loss is half the total by which the destinations are worse than the node, over both orders, an odd half rounded up |
| AffinityLoss.GetPreferredInterPodAntiAffinity | operators/internal/controller/selection_utils.go:1488-1527 | the loop over destinations, in any order, adds up the violations move by move |
| AffinityLoss.NoViolationIff | operators/internal/controller/selection_utils.go:1488-1527 | no violation is created exactly when no moved pod meets a pod on its destination that one of its preferred anti-affinity terms matches |
| Losses.CreatedAreTotal | operators/internal/controller/selection_utils.go:1488-1527 | the plan creates the total weight of the terms of moved pods that speak of a neighbour at their destination, once for every neighbour |
| Losses.NeighboursAre | operators/internal/controller/selection_utils.go:1488-1527 | the neighbours on a destination are exactly the residents that are no system pods and the pods the plan sends there |
| Selection.ScaleDownCandidates | operators/internal/controller/nodeselecting_controller.go:186-199 | exactly the ready, schedulable workers, in order |
| Selection.CandidatesAreFiltered | operators/internal/controller/nodeselecting_controller.go:186-199 | the candidates are the nodes whose machine is a worker, ready and schedulable, each once and in order |
| Selection.GetMigratablePodsOnNode | operators/internal/controller/nodeselecting_controller.go:409-439 | exactly the node's pods that are neither static, DaemonSet, finished nor of a system namespace |
| Selection.MigratableAreFiltered | operators/internal/controller/nodeselecting_controller.go:409-439 | the migratable pods are those bound to the node that do not stay, are not finished and belong to no system namespace, each once and in order |
| Selection.DestinationsAreFiltered | operators/internal/controller/nodeselecting_controller.go:236-273 | the pods may go to every candidate of another name, in order |
| Selection.Rate | operators/internal/controller/selection_utils.go:1145-1208 | a node is rated exactly when its annotations can be read; every criterion is the measure it is named after |
| Selection.RateCandidates | operators/internal/controller/nodeselecting_controller.go:236-273 | every rating belongs to a candidate with an evacuation plan, and every candidate is rated or cannot be evacuated or rated |
| Selection.SelectNodeScaleDown | operators/internal/controller/nodeselecting_controller.go:218-299 | the chosen node is the first best of all rated candidates; none is chosen exactly when none could be rated |
| Selection.EvacuationIsSafe | operators/internal/controller/nodeselecting_controller.go:236-273 | an evacuation plan moves exactly the migratable pods, each to another candidate, and passes every hard filter |
| Selection.SelectNodeScaleUp | operators/internal/controller/nodeselecting_controller.go:135-176 | the chosen node is the first best of the workers that are off and carry both annotations; none is chosen exactly when there is none |
| Selection.WakeableAreFiltered | operators/internal/controller/nodeselecting_controller.go:135-176 | the nodes rated are the workers that are off and carry both annotations, each with its own readings and in order |
| Selection.RatedNodeIsEligible | operators/internal/controller/nodeselecting_controller.go:218-299 | every rated node is one the protocol lets a scale-down select |
| Selection.WakeableIsEligible | operators/internal/controller/nodeselecting_controller.go:135-176 | every node rated for a scale-up is one the protocol lets it select, and there is none only when the protocol has none |
| Selection.ChosenBeatsAll | operators/internal/controller/selection_utils.go:1139-1238 | no rated candidate has a better closeness than the chosen one |
| Protocol.PhaseMovesForward | operators/internal/controller/clusterconfiguration_controller.go:376-451 | no step deletes a configuration or changes its request, and a phase change raises the phase rank |
| Protocol.AtMostFivePhaseChanges | operators/internal/controller/clusterconfiguration_controller.go:376-451 | in every run a configuration changes phase at most five times, and Finished and Failed are absorbing |
| ProtocolSteps.StableStep | operators/internal/controller/clusterconfiguration_controller.go:78-183 | from Stable: Completed when the count is the request, Failed when that is out of bounds, else a selection for exactly the difference unless there is one, and Selecting only for fewer nodes |
| ProtocolSteps.CountingStep | operators/internal/controller/clusterconfiguration_controller.go:334-371 | a new configuration becomes Stable with the count; a Completed one is Finished exactly when the count is the request; a terminal one stays |
| ProtocolSteps.SelectingStep | operators/internal/controller/clusterconfiguration_controller.go:186-253 | follows the one selection, waits for a first one, fails with several |
| ProtocolSteps.SwitchingStep | operators/internal/controller/clusterconfiguration_controller.go:256-316 | follows the one handling; without exactly one it waits while the store holds at most one handling at all, else fails |
| ProtocolSteps.SelectStep | operators/internal/controller/nodeselecting_controller.go:52-133 | a running selection that names a suitable node completes with it and hands it over with its own request; a scale-up fails only when no node can be woken |
| ProtocolSteps.HandleStep | operators/internal/controller/nodehandling_controller.go:89-135 | a running handling acts on its own node alone, on or off by the sign of its request, and completes or leaves the node as reported |
| ProtocolSteps.HandleStarts | operators/internal/controller/nodehandling_controller.go:60-87 | a handling starts unless another one of its configuration runs; one that has acted stays as it is |
| ProtocolSteps.PowerCyclesAreCounted | operators/internal/controller/nodehandling_controller.go:241-258 | in every run, until its annotations are written by others, a node has been switched on as often as at the start plus once for every handling that succeeded since |
| ProtocolSafety.NextKeepsInv | operators/internal/controller/clusterconfiguration_controller.go:78-183 | every step of every actor keeps the protocol invariant |
| ProtocolSafety.SafeInEveryRun | scripts/forecast/main.py:279-342 | in every run at most one configuration is open, at most one handling has yet to act, and the worker count stays within the bounds (the lower one if the two ways of counting agree well enough) |
| ProtocolSafety.OnePendingHandling | operators/internal/controller/nodeselecting_controller.go:106-133 | two handlings that have yet to act are the same one |
| ProtocolSafety.SwitchingHasOneHandling | operators/internal/controller/clusterconfiguration_controller.go:256-316 | in every reachable state a configuration in Switching has exactly one selection, completed, and exactly one handling with its label and node, so the test on the unfiltered list never fires |
| ProtocolSafety.CompletedFinishes | operators/internal/controller/clusterconfiguration_controller.go:334-371 | without legacy master nodes a Completed configuration always finishes |
| ProtocolRange.RangeIsKeptIff | operators/internal/controller/utils.go:25-53 | from an empty store and a count within bounds, every run stays within bounds if and only if at most one ready node is a legacy master, or minNodes is at most 1, or minNodes is not below maxNodes |
| ProtocolReach.ScaleUpFinishesIff | operators/internal/controller/clusterconfiguration_controller.go:108-170 | a scale-up waiting in Stable can finish if and only if its request is met, its handling is still to act, or its selection is still to act and finds a worker that is off and carries both annotations (or, when runs may annotate nodes, any worker that is off) |
| ProtocolReach.FailedScaleUpBlocksForever | scripts/forecast/main.py:279-342 | otherwise no run ever creates another configuration or moves the worker count |
| ProtocolEnd.EveryClusterCanBlock | operators/internal/controller/clusterconfiguration_controller.go:108-170 | from every empty store without legacy nodes whose worker count is below maxNodes, some run reaches that state, whatever nodes there are |
| ProtocolEnd.CanEndIff | operators/internal/controller/clusterconfiguration_controller.go:376-451 | in every reachable state an open configuration can still become terminal if and only if it is not a request for one worker more with none left that could be switched on |
| ProtocolFair.FairRunEndsOrSticks | operators/internal/controller/clusterconfiguration_controller.go:376-451 | in every endless run in which each reconciler of an open configuration is called again and again, and the ranking of a running scale-up with a worker to wake does not end in an error for ever, the configuration becomes terminal or gets stuck |
| ProtocolFair.FairRunEndsIff | operators/internal/controller/clusterconfiguration_controller.go:376-451 | under the same assumptions, when handlings succeed and annotations stay, it does become terminal if and only if it is not a request for one worker more with none left that could be switched on |
| ProtocolFair.FairRunsExist | operators/internal/controller/clusterconfiguration_controller.go:376-451 | from every state there is a run that meets all these assumptions |
| Store.ApiServer.NumberOfWorkerNodes | operators/internal/controller/utils.go:25-53 | the loop counts the ready nodes without the control-plane label |
| Store.ApiServer.GetActiveWorker | scripts/forecast/main.py:449-476 | the loop counts the ready nodes with neither label |
| Store.ApiServer.CreateNodeSelecting | operators/internal/controller/clusterconfiguration_controller.go:487-533 | creates the selection unless one exists; takes exactly the specified step |
| Store.ApiServer.HandleInitialPhase | operators/internal/controller/clusterconfiguration_controller.go:59-75 | exactly the specified step: Stable, with the counted workers |
| Store.ApiServer.HandleStablePhase | operators/internal/controller/clusterconfiguration_controller.go:78-183 | exactly the specified step; a scale-up returns before the phase is written |
| Store.ApiServer.HandleSelectingPhase | operators/internal/controller/clusterconfiguration_controller.go:186-253 | exactly the specified step; proceeds only into Switching |
| Store.ApiServer.HandleSwitchingPhase | operators/internal/controller/clusterconfiguration_controller.go:256-316 | exactly the specified step; proceeds only into Completed |
| Store.ApiServer.HandleCompletedPhase | operators/internal/controller/clusterconfiguration_controller.go:334-371 | exactly the specified step: Finished if the count is the request, else Failed |
| Store.ApiServer.ReconcileConfig | operators/internal/controller/clusterconfiguration_controller.go:376-451 | dispatches on the phase; exactly the protocol step |
| Store.ApiServer.SelectNode | operators/internal/controller/nodeselecting_controller.go:88-103 | the ranking of the listed nodes: its choice is eligible, and a scale-up finds none only when there is none |
| Store.ApiServer.ReconcileSelecting | operators/internal/controller/nodeselecting_controller.go:52-133 | exactly the protocol step of a selection, with the choice the ranking makes; without weights the call ends in an error and the store is left alone; every other call of a running scale-up names a worker to wake when there is one |
| Store.ApiServer.SwitchNodeOff | operators/internal/controller/nodehandling_controller.go:312-370 | only this node changes: it is off when the run succeeds, marked as the run leaves it |
| Store.ApiServer.SwitchNodeOn | operators/internal/controller/nodehandling_controller.go:183-261 | only this node changes: it is on when the run succeeds, marked as the run leaves it, with one more power cycle exactly then |
| Store.ApiServer.ReconcileHandling | operators/internal/controller/nodehandling_controller.go:60-135 | exactly the protocol step of a handling, with the outcome of the handler's run on the node; a running one completes exactly when nothing is asked or that run succeeds |
| Store.ApiServer.IsScalingInProgress | scripts/forecast/main.py:279-299 | true exactly when the configurations cannot be listed or some is not terminal |
| Store.ApiServer.CreateClusterConfiguration | scripts/forecast/main.py:302-342 | creates exactly when the list succeeds, nothing is open, the name is free and the server accepts |
| Store.ApiServer.Forecast | scripts/forecast/main.py:574-619 | a stable, unvetoed label adds exactly one new configuration, for the ready workers plus the sign of the label and with the given bounds, if and only if nothing is open, the name is free, the label is not zero, the request is within both bounds and no call fails; else nothing changes |
| Store.ApiServer.React | scripts/forecast/main.py:543-549 | a reactive request adds exactly one new configuration, for one more than the ready workers and with the given bounds, if and only if nothing is open, the name is free, the request is within the upper bound and no call fails; else nothing changes |
| Store.ApiServer.Execute | operators/internal/controller/clusterconfiguration_controller.go:376-451 | every call of every actor, whatever it finds outside, is a step of the protocol |
| Store.ApiServer.Run | scripts/forecast/main.py:279-342 | whatever the calls: at most one configuration is open, at most one handling is pending, and the worker count keeps its bounds under the condition of RangeIsKeptIff |
| Decision.EvaluatePredictedCpu | scripts/forecast/forecast.py:308-369 | the filter and the accumulating loop compute the rule on the schedulable nodes |
| Decision.DecidesOnSchedulable | scripts/forecast/forecast.py:308-335 | the loads are the predictions of exactly the schedulable nodes, in order, each with the cores of its own address, or four where those are not known |
| Decision.AddressIs | scripts/forecast/forecast.py:313-313 | the address of a target is its longest beginning without a colon |
| Decision.UseIsWeighted | scripts/forecast/forecast.py:327-336 | the use is the sum of the percentages weighted with the cores, and all cores are their sum |
| Decision.DecisionMeans | scripts/forecast/forecast.py:336-369 | with positive cores: no division by zero; +1 exactly when use exceeds the upper share of all cores; -1 exactly when it does not, is below the lower share, and stays below the upper share of what removing the largest node leaves |
| Decision.DividesByZeroIff | scripts/forecast/forecast.py:336-369 | where no node has a negative number of cores: a division by zero exactly when there are no cores, or when one of several nodes has them all and is not used beyond the upper share |
| Decision.ShrinkIsNotUndone | scripts/forecast/forecast.py:300-369 | after -1, removing any one node at constant total use never gives +1 |
| Decision.GrowIsNotUndone | scripts/forecast/forecast.py:300-369 | after +1, adding a node of any size at constant total use never gives -1 |
| Decision.DecisionMonotone | scripts/forecast/forecast.py:327-369 | higher predictions never lower the verdict |
| Decision.NeverLoweredIff | scripts/forecast/forecast.py:327-369 | between two loads of the same nodes, the verdict is lowered for no thresholds if and only if no fewer cores are in use |
| Decision.BoostKeepsIff | scripts/forecast/main.py:175-254 | a boost never lowers what the learned models predict, and lowers a naive prediction exactly when that is negative |
| Decision.BoostMultiplies | scripts/forecast/main.py:175-254 | what cannot exceed 100 is multiplied by the factor, the rest becomes 100; the models differ for negative predictions only, which the learned ones take for zero |
| Decision.AnticipationNeverLowersIff | scripts/forecast/main.py:175-254 | boosting lowers the verdict for no thresholds if and only if it leaves no fewer cores in use |
| Decision.BoostUsesMore | scripts/forecast/main.py:175-254 | it leaves no fewer: always with the learned models, and with the naive one when no mean is negative |
| Decision.AnticipationCanLower | scripts/forecast/main.py:175-181 | means of 100 and -2 percent: the naive boost turns +1 into 0 |
| Anticipation.SlopeIsLeastSquares | scripts/forecast/forecast.py:207-221 | the slope used is that of the line with the least squared error over the window |
| Anticipation.BestLineIsUnique | scripts/forecast/forecast.py:207-221 | no other line has as small a squared error |
| Anticipation.FactorIsGrowth | scripts/forecast/forecast.py:224-271 | a factor above one multiplies the median by as much as the best line through the window rises over the lead; it is the cap exactly where that is more |
| Anticipation.MedianIsMiddle | scripts/forecast/forecast.py:249-249 | the median is the mean of the two middle values of any sorted arrangement of the window |
| Anticipation.WindowSlides | scripts/forecast/forecast.py:244-247 | a finite measurement enters the window at its end and pushes out the oldest of five; others are ignored |
| Anticipation.FallingHasNoGrowth | scripts/forecast/forecast.py:207-221 | a non-increasing window has a slope of at most zero |
| Anticipation.ZeroBaselineIff | scripts/forecast/forecast.py:249-264 | the division by a zero baseline happens if and only if three recent samples are finite, their median is zero, the threshold is at most zero and their slope is positive |
| Anticipation.ZeroBaselineHappens | scripts/forecast/forecast.py:249-264 | a load idle but for its last minute, with a threshold of zero |
| Anticipation.LoadAnticipationInRange | scripts/forecast/main.py:101-141 | the factor lies between 1 and the cap, or the signal that is read divides by zero |
| Anticipation.AnticipatesIff | scripts/forecast/forecast.py:224-271 | for all thresholds, leads and caps: the factor exceeds 1 exactly when the cap does, three recent samples are finite, their median is significant, their slope is positive, and lead and median have one sign |
| Anticipation.FallingIsNotAnticipated | scripts/forecast/forecast.py:249-262 | a load that does not rise over the window gets the factor 1 |
| Anticipation.AnticipationIsSafe | scripts/forecast/main.py:101-141 | whatever the signal and the thresholds, a factor that exists lowers the verdict for no band if and only if it leaves no fewer cores in use; so with the learned models, and without negative means |
| Anticipation.AscendingSorts | scripts/forecast/forecast.py:249-249 | the order the median is taken from is sorted and a permutation of the window |
| Scaling.EveryDecisionIsJustified | scripts/forecast/main.py:479-619 | in every run, of every logged event: a forecast attempt follows the required number of equal non-zero votes with no creation or attempt among them, asks for a count within both bounds, and to shrink found the pods listed, none waiting, and no cooldown running; a reactive creation was made for a pod that waited too long, within the upper bound, at least the grace after the last end seen and with nothing created between; an end is taken for that of a reactive scale-up exactly when one was in flight |
| Ticks.EveryTickLogs | scripts/forecast/main.py:649-676 | the converse, in every run: each tick logs the end of what was open if nothing is any more, a reactive scale-up if and only if one is called for, and, exactly when a forecast is due, its vote, followed by an attempt if and only if votes, bounds and, to shrink, waiting pods and cooldown allow it |
| Cooldown.CooldownKeptIff | scripts/forecast/main.py:495-571 | in every run a forecast scale-down respects the cooldown after every reactive scale-up if and only if none was in flight when it was created |
| Cooldown.SteadyRunsKeepCooldown | scripts/forecast/main.py:649-676 | when configurations change phase between ticks only, it always does |
| Cooldown.CooldownCanBeSkipped | scripts/forecast/main.py:558-571 | a configuration that ends in the middle of a tick lets a scale-down skip the cooldown |
| Forecaster.ScalingState.TrackScalingProgress | scripts/forecast/main.py:495-517 | exactly the specified step on the fields |
| Forecaster.ScalingState.ReactiveStep | scripts/forecast/main.py:520-555 | exactly the specified step on the fields |
| Forecaster.ScalingState.ScaleDownVeto | scripts/forecast/main.py:558-571 | vetoes exactly when the pods are unknown, some wait, or the cooldown runs |
| Forecaster.ScalingState.ForecastStep | scripts/forecast/main.py:574-619 | exactly the specified step on the fields |
| Forecaster.ScalingState.RunTick | scripts/forecast/main.py:649-676 | one pass of the loop, exactly the specified one |
| Forecaster.Run | scripts/forecast/main.py:649-676 | the loop over any sequence of ticks reaches the specified state and log, and every decision in the log is justified |
| Drain.PowerOffOnlyWhenDrained | operators/internal/controller/nodehandling_controller.go:312-342 | every run that issues OFF had the node cordoned and its last poll saw only DaemonSet, mirror and finished pods; nothing else was ever evicted |
| Drain.DrainSucceedsIff | operators/internal/controller/nodehandling_controller.go:390-421 | the drain succeeds exactly when some poll finds the node emptied and in every earlier one the pods are listed, none that must leave and is not terminating is refused its eviction, and one that must leave is there |
| Drain.EvictionsArePass | operators/internal/controller/nodehandling_controller.go:396-419 | a poll evicts, each once and in list order, the pods that must leave and are not terminating, up to the first whose eviction is refused |
| Drain.RefusedIff | operators/internal/controller/nodehandling_controller.go:407-417 | a poll is refused exactly when the reply for one of these pods is a refusal; a pod that is gone or blocked by a budget is passed over |
| Drain.EvacuateLogs | operators/internal/controller/nodehandling_controller.go:390-421 | over all polls of a drain the log is what each poll saw followed by its evictions |
| Drain.ScaleDownSucceedsIff | operators/internal/controller/nodehandling_controller.go:312-370 | switching off succeeds if and only if the credentials are there, the node is cordoned and emptied in time, the power-off is accepted, and the node is seen off before a read fails |
| Drain.FailureEndsUncordoned | operators/internal/controller/nodehandling_controller.go:329-342 | a failed run with credentials leaves the node cordoned if and only if it was drained and its power-off accepted, or it was cordoned and the uncordon failed |
| Drain.FailedDrainUndoesCordon | operators/internal/controller/nodehandling_controller.go:329-336 | a drain that fails uncordons a node that was cordoned before |
| Drain.SuccessEndsOff | operators/internal/controller/nodehandling_controller.go:312-370 | success ends with a cordoned node, an accepted power-off and the node seen not ready |
| Drain.ScaleDownReports | operators/internal/controller/nodehandling_controller.go:312-435 | the cordon a scale-down reports is the one its actions leave behind |
| Drain.ScaleUpReports | operators/internal/controller/nodehandling_controller.go:183-261 | the same for a scale-up |
| Drain.ScaleUpSucceedsIff | operators/internal/controller/nodehandling_controller.go:183-261 | switching on succeeds if and only if the credentials are there, the power-on is accepted, the node is seen ready before a read fails, the uncordon succeeds and the count can be written |
| Drain.ScaleUpCounts | operators/internal/controller/nodehandling_controller.go:183-261 | switching on succeeds exactly when the power cycle is counted; then the node was seen ready and is schedulable |
| NodeHandler.Handler.EvictAll | operators/internal/controller/nodehandling_controller.go:396-419 | one poll evicts each pod that must leave and is not terminating, once and in list order, ends at the first refusal, and reports the node emptied exactly when no pod must leave |
| NodeHandler.Handler.CordonAndDrain | operators/internal/controller/nodehandling_controller.go:376-422 | exactly the specified actions and mark |
| NodeHandler.Handler.UncordonNode | operators/internal/controller/nodehandling_controller.go:424-435 | exactly the specified actions and mark |
| NodeHandler.Handler.ScaleDown | operators/internal/controller/nodehandling_controller.go:312-370 | exactly the specified actions, mark and result; whenever the log shows a power-off the node was cordoned and the last poll had found it emptied |
| NodeHandler.Handler.ScaleUp | operators/internal/controller/nodehandling_controller.go:183-261 | exactly the specified actions, mark and result |

## Left out

- Input and output: the Kubernetes client, informers, ConfigMaps, JSON, Redfish, Prometheus, logging. A failed API call is a reply, or a step that does nothing.
- The learned models, resampling and pandas grouping: their raw percentiles and the demand series are inputs; the percentile of observed data that replaces a model with too few samples is taken as a percentage.
- Random sampling of combinations beyond the limit: the sample is a parameter.
- Floating-point rounding and quantities finer than a milli-core or a byte; 32-bit wrap-around of node and label counts; the clipping of the skew to 32 bits is modelled.
- Bounds that change while a configuration is open.
- The phase field of nodes, which the scale-up ranking reads and the cluster leaves empty; the power-cycle annotation that the scale-down ranking writes as zero where it is missing, which the protocol allows at any time.
- API errors while one candidate is rated: such a candidate is skipped like one without annotations.
- Fidelity to the Kubernetes scheduler, beyond what the code itself does.
- Crashes between the creation of a handling and the status write of its selection, and worker counts read long before the creation they lead to: protocol steps are atomic.
- Nodes that change readiness outside a handling, for instance a node that goes down after its handling reported a timeout.
- Cooldowns across a restart of the forecaster.
- Configurations deleted by hand, and phases other than the ones the reconcilers write.
- Ties in map iteration order: loops over maps take their elements in any order.
- TopologyScore.ScoreIgnoresOrder: assumes that equal constraint keys stand for the same selector, because the code keeps one constraint per printed key.
- Combinations.Pow: states nothing about negative bases with a positive exponent except that they are reported as failure, which no caller reaches.
