/** The exact condition under which the worker count stays within its bounds. Two or more ready nodes
    that carry only the old master label make the controllers see a shrink in a request to grow. */
module ProtocolRange {
  import opened Protocol
  import opened ProtocolSafety
  import opened ProtocolReach

  predicate IsOutOfRange(s: State, b: Bounds) {
    !(b.min <= Workers(s) <= b.max)
  }

  ghost function LeavesRange(b: Bounds): State -> bool {
    s => IsOutOfRange(s, b)
  }

  /** A reachable state of a cluster with at least two legacy nodes and room to scale. */
  ghost predicate Miscounted(s: State, b: Bounds) {
    Inv(s, b) && Legacy(s) >= 2 && 2 <= b.min < b.max
  }

  lemma MiscountedNext(s: State, b: Bounds, step: Step)
    requires Miscounted(s, b)
    ensures Miscounted(Next(s, b, step), b)
  {
    NextKeepsInv(s, b, step);
    hide Inv, Next, Legacy;
  }

  lemma MiscountedParts(s: State, b: Bounds)
    requires Miscounted(s, b)
    ensures NamesOk(s) && AtMostOneOpen(s) && Inv(s, b) && Legacy(s) >= 2 && 2 <= b.min < b.max
  {
  }

  // ---------------------------------------------------------------- one lap, stage by stage

  ghost predicate InPhase(s: State, b: Bounds, c: string, p: ConfigPhase) {
    Miscounted(s, b) && c in s.configs && s.configs[c].phase == p
  }

  ghost predicate HandlingIs(s: State, c: string, p: HandlePhase) {
    HasHandling(s, c) && s.handlings[HandlingName(c)].phase == p
  }

  /** One reconcile call on the open configuration. */
  lemma ConfigureStage(s: State, b: Bounds, c: string, p: ConfigPhase)
    requires Miscounted(s, b) && c in s.configs
    requires ReconcileConfig(s, c).machines == s.machines && c in ReconcileConfig(s, c).configs
    requires ReconcileConfig(s, c).configs[c].phase == p
    ensures InPhase(ReconcileConfig(s, c), b, c, p) && Workers(ReconcileConfig(s, c)) == Workers(s)
    ensures CanReach(ReconcileConfig(s, c), b, true, LeavesRange(b)) ==> CanReach(s, b, true, LeavesRange(b))
  {
    MiscountedNext(s, b, Configure(c));
    hide Miscounted, ReconcileConfig, ActiveWorkers;
    assert Next(s, b, Configure(c)) == ReconcileConfig(s, c);
    if CanReach(ReconcileConfig(s, c), b, true, LeavesRange(b)) {
      ReachedLater(s, b, Configure(c), true, LeavesRange(b));
    }
  }

  lemma CompletedCloses(s: State, b: Bounds, c: string)
    requires InPhase(s, b, c, Completed)
    ensures !ScalingInProgress(HandleCompletedPhase(s, c))
  {
    MiscountedParts(s, b);
    hide Inv, NamesOk, CountedNodes, Miscounted;
  }

  /** The last call ends the configuration, whether it finishes or fails. */
  lemma CompletedLeaves(s: State, b: Bounds, c: string)
    requires InPhase(s, b, c, Completed)
    ensures CanReach(s, b, true, LeavesRange(b))
    decreases Workers(s), 11
  {
    var t := ReconcileConfig(s, c);
    hide Miscounted, ScalingInProgress, CanReach, CountedNodes, HandleStable, HandleInitial, HandleSelecting,
         HandleSwitching;
    CompletedCloses(s, b, c);
    ConfigureStage(s, b, c, t.configs[c].phase);
    RestLeaves(t, b);
  }

  lemma SwitchingLeaves(s: State, b: Bounds, c: string)
    requires InPhase(s, b, c, Switching) && HandlingIs(s, c, HandleCompleted)
    ensures CanReach(s, b, true, LeavesRange(b))
    decreases Workers(s), 12
  {
    MiscountedParts(s, b);
    SwitchingIs(s, c);
    hide Inv, NamesOk, AtMostOneOpen, Miscounted, HandleSwitching, HandlingName, CanReach;
    ConfigureStage(s, b, c, Completed);
    CompletedLeaves(ReconcileConfig(s, c), b, c);
  }

  lemma SwitchedLeaves(s: State, b: Bounds, c: string)
    requires InPhase(s, b, c, Selecting) && HandlingIs(s, c, HandleCompleted) && SelectionIs(s, c, SelectCompleted)
    ensures CanReach(s, b, true, LeavesRange(b))
    decreases Workers(s), 13
  {
    MiscountedParts(s, b);
    SelectingIs(s, c);
    hide Inv, NamesOk, AtMostOneOpen, Miscounted, HandleSelecting, HandlingName, SelectingName, CanReach;
    ConfigureStage(s, b, c, Switching);
    SwitchingLeaves(ReconcileConfig(s, c), b, c);
  }

  /** The handling of a miscounted cluster is one that switches a ready worker off. */
  lemma HandlingShrinks(s: State, b: Bounds, c: string)
    requires InPhase(s, b, c, Selecting) && HandlingIs(s, c, HandleRunning)
    ensures var t := ReconcileHandling(s, HandlingName(c), Success);
            && t.configs == s.configs && t.selectings == s.selectings && Workers(t) == Workers(s) - 1
            && HandlingIs(t, c, HandleCompleted) && SelectionIs(s, c, SelectCompleted)
  {
    MiscountedParts(s, b);
    InvAt(s, b, c);
    HandlingOwner(s, c);
    PendingHandling(s, c, Workers(s), Legacy(s));
    assert s.handlings[HandlingName(c)].scaling < 0 && SelectionIs(s, c, SelectCompleted);
    hide Inv, NamesOk, AtMostOneOpen, OpenOk, Miscounted, HandlingName, SelectingName, ReconcileHandling,
         ActiveWorkers, LegacyNodes;
    HandleCounts(s, HandlingName(c), Success);
  }

  /** The switch takes one more worker away. */
  lemma RunningHandlingLeaves(s: State, b: Bounds, c: string)
    requires InPhase(s, b, c, Selecting) && HandlingIs(s, c, HandleRunning)
    ensures CanReach(s, b, true, LeavesRange(b))
    decreases Workers(s), 1
  {
    var step := Handle(HandlingName(c), Success);
    MiscountedNext(s, b, step);
    HandleIsStep(s, b, step);
    HandlingShrinks(s, b, c);
    hide Miscounted, HandlingName, SelectingName, CanReach, ReconcileHandling, Next, Workers;
    SwitchedLeaves(Next(s, b, step), b, c);
    ReachedLater(s, b, step, true, LeavesRange(b));
  }

  lemma NewHandlingLeaves(s: State, b: Bounds, c: string)
    requires InPhase(s, b, c, Selecting) && HandlingIs(s, c, HandleNew)
    ensures CanReach(s, b, true, LeavesRange(b))
    decreases Workers(s), 2
  {
    var step := Handle(HandlingName(c), Success);
    MiscountedNext(s, b, step);
    MiscountedParts(s, b);
    HandlingStarts(s, b, HandlingName(c), Success);
    hide Inv, NamesOk, AtMostOneOpen, Miscounted, HandlingName, SelectingName, CanReach, ActiveWorkers, Next;
    RunningHandlingLeaves(Next(s, b, step), b, c);
    ReachedLater(s, b, step, true, LeavesRange(b));
  }

  // ---------------------------------------------------------------- selecting a node

  lemma TwoWorkers(s: State) returns (n: string, m: string)
    requires Workers(s) >= 2
    ensures n in s.machines && m in s.machines && n != m
    ensures IsActiveWorker(s.machines[n]) && IsActiveWorker(s.machines[m])
  {
    var all := ActiveWorkers(s.machines);
    n :| n in all;
    var rest := all - {n};
    assert |rest| >= 1;
    m :| m in rest;
  }

  /** A step that changes the marks of a node only. */
  lemma MarkStage(s: State, b: Bounds, step: Step, n: string, m: Machine)
    requires Miscounted(s, b) && n in s.machines && Next(s, b, step) == WithMachine(s, n, m)
    requires m.role == s.machines[n].role && m.ready == s.machines[n].ready
    ensures Miscounted(WithMachine(s, n, m), b) && Workers(WithMachine(s, n, m)) == Workers(s)
    ensures CanReach(WithMachine(s, n, m), b, true, LeavesRange(b)) ==> CanReach(s, b, true, LeavesRange(b))
  {
    MiscountedNext(s, b, step);
    SameReadiness(s.machines, n, m);
    hide Miscounted, ActiveWorkers, CanReach, Next;
    if CanReach(Next(s, b, step), b, true, LeavesRange(b)) { ReachedLater(s, b, step, true, LeavesRange(b)); }
  }

  lemma SelectionLeaves(s: State, b: Bounds, c: string, n: string)
    requires InPhase(s, b, c, Selecting) && SelectionIs(s, c, SelectRunning) && IsEligible(s, -1, n)
    ensures CanReach(s, b, true, LeavesRange(b))
    decreases Workers(s), 3
  {
    var step := Select(SelectingName(c), n);
    var t := Next(s, b, step);
    MiscountedNext(s, b, step);
    MiscountedParts(s, b);
    InvAt(s, b, c);
    SelectingOwner(s, c);
    assert !HasHandling(s, c) && s.selectings[SelectingName(c)].scaling < 0 by { hide Inv, NamesOk; }
    assert IsEligible(s, s.selectings[SelectingName(c)].scaling, n);
    SelectionChooses(s, b, c, n);
    hide Inv, NamesOk, AtMostOneOpen, OpenOk, Miscounted, HandlingName, SelectingName, CanReach, ActiveWorkers, Legacy,
         IsEligible, ScalingInProgress, Next;
    NewHandlingLeaves(t, b, c);
    ReachedLater(s, b, step, true, LeavesRange(b));
  }

  /** Two ready workers, made schedulable, and one of them rated, make an eligible choice. */
  lemma MadeEligible(s: State, n: string, m: string, x: Machine, y: Machine, z: Machine)
    requires n in s.machines && m in s.machines && n != m
    requires IsActiveWorker(s.machines[n]) && IsActiveWorker(s.machines[m])
    requires x == s.machines[n].(unschedulable := false) && y == s.machines[m].(unschedulable := false)
    requires z == x.(powerCycle := Parsed(0), energyProfile := Parsed(0.0))
    ensures IsEligible(WithMachine(WithMachine(WithMachine(s, n, x), m, y), n, z), -1, n)
  {
    var u := WithMachine(WithMachine(WithMachine(s, n, x), m, y), n, z);
    assert IsScaleDownCandidate(u.machines[m]);
  }

  lemma MarksAre(s: State, b: Bounds, n: string)
    requires n in s.machines
    ensures Next(s, b, Cordon(n, false)) == WithMachine(s, n, s.machines[n].(unschedulable := false))
    ensures Next(s, b, Annotate(n, Parsed(0), Parsed(0.0)))
         == WithMachine(s, n, s.machines[n].(powerCycle := Parsed(0), energyProfile := Parsed(0.0)))
  {
  }

  /** Marks leave the selection of c alone. */
  lemma MarkKeepsSelection(s: State, c: string, n: string, m: Machine, p: SelectPhase)
    requires SelectionIs(s, c, p)
    ensures SelectionIs(WithMachine(s, n, m), c, p) && WithMachine(s, n, m).configs == s.configs
  {
    hide SelectingName;
  }

  lemma RunningSelectionLeaves(s: State, b: Bounds, c: string)
    requires InPhase(s, b, c, Selecting) && SelectionIs(s, c, SelectRunning) && Workers(s) >= 2
    ensures CanReach(s, b, true, LeavesRange(b))
    decreases Workers(s), 4
  {
    var n, m := TwoWorkers(s);
    var x, y := s.machines[n].(unschedulable := false), s.machines[m].(unschedulable := false);
    var z := x.(powerCycle := Parsed(0), energyProfile := Parsed(0.0));
    var t := WithMachine(s, n, x);
    var u := WithMachine(t, m, y);
    var v := WithMachine(u, n, z);
    MadeEligible(s, n, m, x, y, z);
    MarksAre(s, b, n);
    MarksAre(t, b, m);
    MarksAre(u, b, n);
    MarkKeepsSelection(s, c, n, x, SelectRunning);
    MarkKeepsSelection(t, c, m, y, SelectRunning);
    MarkKeepsSelection(u, c, n, z, SelectRunning);
    assert t.machines[m] == s.machines[m] && u.machines[n] == x;
    hide Miscounted, Workers, CanReach, SelectionIs, IsEligible, Next, WithMachine;
    MarkStage(s, b, Cordon(n, false), n, x);
    MarkStage(t, b, Cordon(m, false), m, y);
    MarkStage(u, b, Annotate(n, Parsed(0), Parsed(0.0)), n, z);
    SelectionLeaves(v, b, c, n);
  }

  lemma NewSelectionLeaves(s: State, b: Bounds, c: string)
    requires InPhase(s, b, c, Selecting) && SelectionIs(s, c, SelectNew) && Workers(s) >= 2
    ensures CanReach(s, b, true, LeavesRange(b))
    decreases Workers(s), 5
  {
    var step := Select(SelectingName(c), "");
    MiscountedNext(s, b, step);
    MiscountedParts(s, b);
    SelectionStarts(s, b, SelectingName(c), "");
    hide Inv, NamesOk, AtMostOneOpen, Miscounted, HandlingName, SelectingName, CanReach, ActiveWorkers, Next;
    RunningSelectionLeaves(Next(s, b, step), b, c);
    ReachedLater(s, b, step, true, LeavesRange(b));
  }

  // ---------------------------------------------------------------- from the request to the selection

  /** Counted workers exceed the request, whichever way it went. */
  lemma StableLeaves(s: State, b: Bounds, c: string)
    requires InPhase(s, b, c, Stable) && !HasSelecting(s, c) && b.min <= s.configs[c].required && Workers(s) >= 2
    ensures CanReach(s, b, true, LeavesRange(b))
    decreases Workers(s), 6
  {
    MiscountedParts(s, b);
    InvAt(s, b, c);
    CountsDifferByLegacy(s.machines);
    StableIs(s, c);
    hide Inv, NamesOk, AtMostOneOpen, Miscounted, HandlingName, SelectingName, CanReach, CountedNodes, Workers,
         Legacy, HandleStable;
    ConfigureStage(s, b, c, Selecting);
    NewSelectionLeaves(ReconcileConfig(s, c), b, c);
  }

  lemma NewLeaves(s: State, b: Bounds, c: string)
    requires InPhase(s, b, c, New) && b.min <= s.configs[c].required && Workers(s) >= 2
    ensures CanReach(s, b, true, LeavesRange(b))
    decreases Workers(s), 7
  {
    InvAt(s, b, c);
    hide Inv, Miscounted, HandlingName, SelectingName, CanReach, CountedNodes;
    ConfigureStage(s, b, c, Stable);
    StableLeaves(ReconcileConfig(s, c), b, c);
  }

  /** No configuration is open: the forecaster asks again. */
  lemma RestLeaves(s: State, b: Bounds)
    requires Miscounted(s, b) && !ScalingInProgress(s)
    ensures CanReach(s, b, true, LeavesRange(b))
    decreases Workers(s), 10
  {
    if IsOutOfRange(s, b) {
      ReachedNow(s, b, true, LeavesRange(b));
    } else {
      var c := FreshName(s.configs.Keys);
      var step := Forecast(c, if Workers(s) > b.min then Shrink else Grow);
      MiscountedNext(s, b, step);
      MiscountedParts(s, b);
      hide Inv, NamesOk, AtMostOneOpen, Miscounted, CanReach, ActiveWorkers, ScalingInProgress;
      NewLeaves(Next(s, b, step), b, c);
      ReachedLater(s, b, step, true, LeavesRange(b));
    }
  }

  /** From an empty store and a worker count within bounds, every run stays within bounds exactly when
      at most one ready node is a legacy master, or the bounds leave no room for the error. */
  lemma {:induction false} RangeIsKeptIff(s: State, b: Bounds)
    requires Init(s, b)
    ensures (forall run: seq<Step> :: !IsOutOfRange(After(s, b, run, |run|), b)) <==> CountsAgreeEnough(b, Legacy(s))
  {
    hide After;
    if CountsAgreeEnough(b, Legacy(s)) {
      forall run: seq<Step> ensures !IsOutOfRange(After(s, b, run, |run|), b) {
        SafeInEveryRun(s, b, run, |run|);
      }
    } else {
      InitHolds(s, b);
      RestLeaves(s, b);
      var run: seq<Step> :| AreAllowed(run, true) && LeavesRange(b)(After(s, b, run, |run|));
      assert IsOutOfRange(After(s, b, run, |run|), b);
    }
  }
}
