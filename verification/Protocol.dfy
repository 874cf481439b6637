/** The scaling protocol as a state machine: the forecaster and the three reconcilers acting, one
    atomic step at a time, on the objects in the API server. */
module Protocol {

  // ---------------------------------------------------------------- objects

  datatype ConfigPhase = New | Stable | Selecting | Switching | Completed | Finished | Failed

  /** A ClusterConfiguration. */
  datatype Config = Config(required: int, minNodes: int, maxNodes: int, active: int, phase: ConfigPhase)

  datatype SelectPhase = SelectNew | SelectRunning | SelectCompleted | SelectFailed

  /** A NodeSelecting. */
  datatype NodeSelecting = NodeSelecting(config: string, scaling: int, selected: string, phase: SelectPhase)

  datatype HandlePhase = HandleNew | HandleRunning | HandleCompleted | HandleFailed

  /** A NodeHandling. */
  datatype NodeHandling = NodeHandling(config: string, scaling: int, selected: string, phase: HandlePhase)

  /** LegacyMaster carries the old master label only. */
  datatype Role = Worker | ControlPlane | LegacyMaster

  /** A node annotation that should hold a number. Malformed text may start with one. */
  datatype Annotation<T> = Missing | Malformed(prefix: T) | Parsed(value: T)

  datatype Machine = Machine(
    role: Role,
    ready: bool,
    unschedulable: bool,
    powerCycle: Annotation<int>,
    energyProfile: Annotation<real>)

  datatype State = State(
    configs: map<string, Config>,
    selectings: map<string, NodeSelecting>,
    handlings: map<string, NodeHandling>,
    machines: map<string, Machine>)

  /** minNodes and maxNodes of the cluster-configuration parameters. */
  datatype Bounds = Bounds(min: int, max: int)

  function SelectingName(config: string): string {
    "node-selecting-" + config
  }

  function HandlingName(config: string): string {
    "node-handling-" + config
  }

  predicate IsTerminal(p: ConfigPhase) {
    p == Finished || p == Failed
  }

  predicate HasActed(h: NodeHandling) {
    h.phase == HandleCompleted || h.phase == HandleFailed
  }

  // ---------------------------------------------------------------- counting machines

  predicate IsActiveWorker(m: Machine) {
    m.role == Worker && m.ready
  }

  /** Ready workers as the forecaster counts them: neither label. */
  function ActiveWorkers(machines: map<string, Machine>): set<string> {
    set n | n in machines && IsActiveWorker(machines[n])
  }

  predicate IsCountedByController(m: Machine) {
    m.role != ControlPlane && m.ready
  }

  /** Ready workers as the controllers count them: only the control-plane label is excluded. */
  function CountedNodes(machines: map<string, Machine>): set<string> {
    set n | n in machines && IsCountedByController(machines[n])
  }

  // ---------------------------------------------------------------- the forecaster

  datatype Verdict = Shrink | Keep | Grow

  predicate ScalingInProgress(s: State) {
    exists c :: c in s.configs && !IsTerminal(s.configs[c].phase)
  }

  /** Creation is skipped while another configuration is open, and fails if the name is taken. */
  function CreateConfig(s: State, name: string, required: int, b: Bounds): State {
    if ScalingInProgress(s) || name in s.configs then s
    else s.(configs := s.configs[name := Config(required, b.min, b.max, 0, New)])
  }

  function Delta(v: Verdict): int {
    match v
    case Shrink => -1
    case Keep => 0
    case Grow => 1
  }

  /** One forecast whose label has been stable for long enough and is not vetoed. */
  function ForecastStep(s: State, b: Bounds, name: string, v: Verdict): State {
    var required := |ActiveWorkers(s.machines)| + Delta(v);
    if v == Keep || !(b.min <= required <= b.max) then s else CreateConfig(s, name, required, b)
  }

  /** One reactive scale-up request: only the upper bound is checked. */
  function ReactiveStep(s: State, b: Bounds, name: string): State {
    var required := |ActiveWorkers(s.machines)| + 1;
    if required > b.max then s else CreateConfig(s, name, required, b)
  }

  // ---------------------------------------------------------------- ClusterConfiguration reconciler

  function WithPhase(s: State, name: string, p: ConfigPhase): State
    requires name in s.configs
  {
    s.(configs := s.configs[name := s.configs[name].(phase := p)])
  }

  function SelectingsOf(s: State, config: string): set<string> {
    set k | k in s.selectings && s.selectings[k].config == config
  }

  function HandlingsOf(s: State, config: string): set<string> {
    set k | k in s.handlings && s.handlings[k].config == config
  }

  function CreateNodeSelecting(s: State, config: string, scaling: int): State {
    if SelectingsOf(s, config) != {} || SelectingName(config) in s.selectings then s
    else s.(selectings := s.selectings[SelectingName(config) := NodeSelecting(config, scaling, "", SelectNew)])
  }

  function HandleInitial(s: State, name: string): State
    requires name in s.configs
  {
    s.(configs := s.configs[name := s.configs[name].(phase := Stable, active := |CountedNodes(s.machines)|)])
  }

  /** A scale-up returns before any status write, so its configuration stays Stable. */
  function HandleStable(s: State, name: string): State
    requires name in s.configs
  {
    var active := |CountedNodes(s.machines)|;
    var c := s.configs[name].(active := active);
    if active == c.required then s.(configs := s.configs[name := c.(phase := Completed)])
    else if c.required > c.maxNodes || c.required < c.minNodes then
      s.(configs := s.configs[name := c.(phase := Failed)])
    else if active < c.required then
      var most := if c.maxNodes < c.required then c.maxNodes else c.required;
      CreateNodeSelecting(s, name, most - active)
    else
      var scaling := (if c.required < c.minNodes then c.minNodes else c.required) - active;
      var t := if scaling != 0 then CreateNodeSelecting(s, name, scaling) else s;
      t.(configs := t.configs[name := c.(phase := Selecting)])
  }

  function HandleSelecting(s: State, name: string): State
    requires name in s.configs
  {
    var mine := SelectingsOf(s, name);
    if |mine| == 1 then
      if exists k :: k in mine && s.selectings[k].phase == SelectCompleted then WithPhase(s, name, Switching)
      else if exists k :: k in mine && s.selectings[k].phase == SelectFailed then WithPhase(s, name, Failed)
      else s
    else if |mine| > 1 then WithPhase(s, name, Failed)
    else s
  }

  /** The multiplicity test looks at the list before filtering. */
  function HandleSwitching(s: State, name: string): State
    requires name in s.configs
  {
    var mine := HandlingsOf(s, name);
    if |mine| == 1 then
      if exists k :: k in mine && s.handlings[k].phase == HandleCompleted then WithPhase(s, name, Completed)
      else if exists k :: k in mine && s.handlings[k].phase == HandleFailed then WithPhase(s, name, Failed)
      else s
    else if |s.handlings| > 1 then WithPhase(s, name, Failed)
    else s
  }

  function HandleCompletedPhase(s: State, name: string): State
    requires name in s.configs
  {
    var counted := |CountedNodes(s.machines)|;
    var c := s.configs[name];
    if counted != c.required then WithPhase(s, name, Failed)
    else s.(configs := s.configs[name := c.(active := counted, phase := Finished)])
  }

  function ReconcileConfig(s: State, name: string): State {
    if name !in s.configs then s
    else match s.configs[name].phase
      case New => HandleInitial(s, name)
      case Stable => HandleStable(s, name)
      case Selecting => HandleSelecting(s, name)
      case Switching => HandleSwitching(s, name)
      case Completed => HandleCompletedPhase(s, name)
      case Finished => s
      case Failed => s
  }

  // ---------------------------------------------------------------- NodeSelecting reconciler

  predicate IsScaleDownCandidate(m: Machine) {
    m.role == Worker && m.ready && !m.unschedulable
  }

  predicate IsScaleUpCandidate(m: Machine) {
    m.role == Worker && !m.ready
  }

  /** What the ranking for a scale-down needs: a missing power-cycle count is written as zero first. */
  predicate IsRankedDown(m: Machine) {
    m.energyProfile.Parsed? && !m.powerCycle.Malformed?
  }

  /** What the ranking for a scale-up needs: it skips a node without both annotations. */
  predicate IsRankedUp(m: Machine) {
    m.energyProfile.Parsed? && m.powerCycle.Parsed?
  }

  predicate HasOtherCandidate(s: State, node: string) {
    exists n :: n in s.machines && n != node && IsScaleDownCandidate(s.machines[n])
  }

  predicate CanWake(m: Machine) {
    IsScaleUpCandidate(m) && IsRankedUp(m)
  }

  predicate HasNodeToWake(s: State) {
    exists n :: n in s.machines && CanWake(s.machines[n])
  }

  /** Whether a selection may choose the node. A node is switched off only when another candidate is
      left to take its pods. */
  predicate IsEligible(s: State, scaling: int, node: string) {
    && node in s.machines
    && var m := s.machines[node];
       || (scaling < 0 && IsScaleDownCandidate(m) && IsRankedDown(m) && HasOtherCandidate(s, node))
       || (scaling > 0 && CanWake(m))
  }

  /** A running selection for a scale-up names a worker it can wake, when there is one. Only an error of the
      ranking prevents that; nothing is said of other selections. */
  predicate RanksWell(s: State, name: string, choice: string) {
    (name in s.selectings && s.selectings[name].phase == SelectRunning && s.selectings[name].scaling > 0
     && HasNodeToWake(s))
    ==> IsEligible(s, s.selectings[name].scaling, choice)
  }

  function CreateNodeHandling(s: State, ns: NodeSelecting, selected: string): State {
    s.(handlings := s.handlings[HandlingName(ns.config) := NodeHandling(ns.config, ns.scaling, selected, HandleNew)])
  }

  /** choice is the ranking's first node; for a scale-down it may be no candidate at all, because none can
      be evacuated. */
  function ReconcileSelecting(s: State, name: string, choice: string): State {
    if name !in s.selectings then s
    else
      var ns := s.selectings[name];
      match ns.phase
      case SelectNew =>
        if exists k ::
             && k in s.selectings && k != name
             && s.selectings[k].config == ns.config && s.selectings[k].phase == SelectRunning
        then s
        else s.(selectings := s.selectings[name := ns.(phase := SelectRunning)])
      case SelectRunning =>
        if !IsEligible(s, ns.scaling, choice) then
          // a scale-up always finds the best node there is, unless the ranking ends in an error
          if ns.scaling > 0 && HasNodeToWake(s) then s
          else s.(selectings := s.selectings[name := ns.(phase := SelectFailed)])
        else if HandlingName(ns.config) in s.handlings then s
        else
          var t := CreateNodeHandling(s, ns, choice);
          t.(selectings := t.selectings[name := ns.(selected := choice, phase := SelectCompleted)])
      case SelectCompleted => s
      case SelectFailed => s
  }

  // ---------------------------------------------------------------- NodeHandling reconciler

  /** How a handling ends. A failed one may or may not have switched its node before reporting, and
      leaves it cordoned or not. */
  datatype Outcome = Success | Failure(switched: bool, cordoned: bool)

  /** How often the node was switched on, as far as its annotation tells. */
  function PowerCycles(m: Machine): int {
    match m.powerCycle
    case Missing => 0
    case Malformed(prefix) => prefix
    case Parsed(count) => count
  }

  function SwitchedOn(m: Machine, outcome: Outcome): Machine {
    match outcome
    case Success => m.(ready := true, unschedulable := false, powerCycle := Parsed(PowerCycles(m) + 1))
    case Failure(switched, cordoned) => m.(ready := m.ready || switched, unschedulable := cordoned)
  }

  function SwitchedOff(m: Machine, outcome: Outcome): Machine {
    match outcome
    case Success => m.(ready := false, unschedulable := true)
    case Failure(switched, cordoned) => m.(ready := m.ready && !switched, unschedulable := cordoned)
  }

  function ReconcileHandling(s: State, name: string, outcome: Outcome): State {
    if name !in s.handlings then s
    else
      var nh := s.handlings[name];
      match nh.phase
      case HandleNew =>
        if exists k ::
             && k in s.handlings && k != name
             && s.handlings[k].config == nh.config && s.handlings[k].phase == HandleRunning
        then s
        else s.(handlings := s.handlings[name := nh.(phase := HandleRunning)])
      case HandleRunning =>
        if nh.scaling == 0 then s.(handlings := s.handlings[name := nh.(phase := HandleCompleted)])
        else if nh.selected !in s.machines then s.(handlings := s.handlings[name := nh.(phase := HandleFailed)])
        else
          var m := s.machines[nh.selected];
          var switched := if nh.scaling > 0 then SwitchedOn(m, outcome) else SwitchedOff(m, outcome);
          s.(handlings := s.handlings[name := nh.(phase := if outcome.Success? then HandleCompleted else HandleFailed)],
             machines := s.machines[nh.selected := switched])
      case HandleCompleted => s
      case HandleFailed => s
  }

  // ---------------------------------------------------------------- runs

  datatype Step =
    | Forecast(name: string, verdict: Verdict)
    | Reactive(name: string)
    | Configure(name: string)
    | Select(name: string, choice: string)
    | Handle(name: string, outcome: Outcome)
    | Cordon(node: string, value: bool)  // an administrator marks a node (un)schedulable
    | Annotate(node: string, powerCycle: Annotation<int>, energyProfile: Annotation<real>)  // by anyone

  function WithMachine(s: State, node: string, m: Machine): State {
    s.(machines := s.machines[node := m])
  }

  function Next(s: State, b: Bounds, step: Step): State {
    match step
    case Forecast(name, verdict) => ForecastStep(s, b, name, verdict)
    case Reactive(name) => ReactiveStep(s, b, name)
    case Configure(name) => ReconcileConfig(s, name)
    case Select(name, choice) => ReconcileSelecting(s, name, choice)
    case Handle(name, outcome) => ReconcileHandling(s, name, outcome)
    case Cordon(node, value) =>
      if node in s.machines then WithMachine(s, node, s.machines[node].(unschedulable := value)) else s
    case Annotate(node, powerCycle, energyProfile) =>
      if node in s.machines
      then WithMachine(s, node, s.machines[node].(powerCycle := powerCycle, energyProfile := energyProfile))
      else s
  }

  /** The state after the first n steps of a run. */
  function After(s: State, b: Bounds, run: seq<Step>, n: nat): State
    requires n <= |run|
  {
    if n == 0 then s else Next(After(s, b, run, n - 1), b, run[n - 1])
  }

  // ---------------------------------------------------------------- phases only move forward

  function Rank(p: ConfigPhase): nat {
    match p
    case New => 0
    case Stable => 1
    case Selecting => 2
    case Switching => 3
    case Completed => 4
    case Finished => 5
    case Failed => 5
  }

  ghost predicate MovesForward(s: State, t: State, c: string)
    requires c in s.configs
  {
    && c in t.configs
    && t.configs[c].required == s.configs[c].required
    && (t.configs[c].phase == s.configs[c].phase || Rank(s.configs[c].phase) < Rank(t.configs[c].phase))
  }

  lemma StableMovesForward(s: State, name: string, c: string)
    requires c in s.configs && name in s.configs && s.configs[name].phase == Stable
    ensures MovesForward(s, HandleStable(s, name), c)
  {
    StableKeepsConfigs(s, name);
    hide CreateNodeSelecting, CountedNodes;
  }

  lemma WaitingMovesForward(s: State, name: string, c: string)
    requires c in s.configs && name in s.configs
    ensures s.configs[name].phase == Selecting ==> MovesForward(s, HandleSelecting(s, name), c)
    ensures s.configs[name].phase == Switching ==> MovesForward(s, HandleSwitching(s, name), c)
  {
    hide SelectingsOf, HandlingsOf;
  }

  lemma ConfigureMovesForward(s: State, name: string, c: string)
    requires c in s.configs
    ensures MovesForward(s, ReconcileConfig(s, name), c)
  {
    hide HandleStable, HandleSelecting, HandleSwitching, CountedNodes;
    if name in s.configs {
      WaitingMovesForward(s, name, c);
      if s.configs[name].phase == Stable { StableMovesForward(s, name, c); }
    }
  }

  /** A configuration is never deleted, its request never changes, and a phase change raises the
      rank. */
  lemma {:induction false} PhaseMovesForward(s: State, b: Bounds, step: Step, c: string)
    requires c in s.configs
    ensures MovesForward(s, Next(s, b, step), c)
  {
    hide ReconcileConfig, ActiveWorkers;
    if step.Configure? { ConfigureMovesForward(s, step.name, c); }
  }

  lemma StableKeepsConfigs(s: State, c: string)
    ensures forall scaling :: CreateNodeSelecting(s, c, scaling).configs == s.configs
  {
  }

  function PhaseChanges(s: State, b: Bounds, run: seq<Step>, c: string, n: nat): nat
    requires n <= |run|
  {
    if n == 0 then 0
    else
      var before, after := After(s, b, run, n - 1), After(s, b, run, n);
      PhaseChanges(s, b, run, c, n - 1)
      + (if c in before.configs && c in after.configs && before.configs[c].phase != after.configs[c].phase
         then 1 else 0)
  }

  /** In any run a configuration changes phase at most five times. */
  lemma {:induction false} AtMostFivePhaseChanges(s: State, b: Bounds, run: seq<Step>, c: string, n: nat)
    requires n <= |run| && c in s.configs
    ensures c in After(s, b, run, n).configs
    ensures PhaseChanges(s, b, run, c, n) + Rank(s.configs[c].phase) <= Rank(After(s, b, run, n).configs[c].phase)
    ensures PhaseChanges(s, b, run, c, n) <= 5
    ensures IsTerminal(s.configs[c].phase) ==> After(s, b, run, n).configs[c].phase == s.configs[c].phase
  {
    hide Next;
    if n > 0 {
      AtMostFivePhaseChanges(s, b, run, c, n - 1);
      PhaseMovesForward(After(s, b, run, n - 1), b, run[n - 1], c);
    }
  }
}
