/** What some run of the protocol can bring about, and when a scale-up can never end. */
module ProtocolReach {
  import opened Protocol
  import opened ProtocolSafety

  /** Whether runs may change the annotations the ranking reads. */
  ghost predicate IsAllowed(step: Step, annotated: bool) {
    annotated || !step.Annotate?
  }

  ghost predicate AreAllowed(run: seq<Step>, annotated: bool) {
    forall i :: 0 <= i < |run| ==> IsAllowed(run[i], annotated)
  }

  /** Some run leads to a state with the goal. */
  ghost predicate CanReach(s: State, b: Bounds, annotated: bool, goal: State -> bool) {
    exists run: seq<Step> :: AreAllowed(run, annotated) && goal(After(s, b, run, |run|))
  }

  lemma {:induction false} AfterPrepend(s: State, b: Bounds, step: Step, run: seq<Step>, n: nat)
    requires n <= |run|
    ensures After(s, b, [step] + run, n + 1) == After(Next(s, b, step), b, run, n)
  {
    hide Next;
    if n == 0 {
      assert After(s, b, [step] + run, 0) == s;
    } else {
      AfterPrepend(s, b, step, run, n - 1);
      assert ([step] + run)[n] == run[n - 1];
    }
  }

  lemma ReachedNow(s: State, b: Bounds, annotated: bool, goal: State -> bool)
    requires goal(s)
    ensures CanReach(s, b, annotated, goal)
  {
    var none: seq<Step> := [];
    assert AreAllowed(none, annotated) && goal(After(s, b, none, |none|));
  }

  lemma ReachedLater(s: State, b: Bounds, step: Step, annotated: bool, goal: State -> bool)
    requires IsAllowed(step, annotated) && CanReach(Next(s, b, step), b, annotated, goal)
    ensures CanReach(s, b, annotated, goal)
  {
    hide Next;
    var run: seq<Step> :| AreAllowed(run, annotated) && goal(After(Next(s, b, step), b, run, |run|));
    AfterPrepend(s, b, step, run, |run|);
    var whole := [step] + run;
    assert AreAllowed(whole, annotated) && goal(After(s, b, whole, |whole|));
  }

  /** A goal that implies another. */
  lemma ReachedWeaker(s: State, b: Bounds, annotated: bool, goal: State -> bool, weaker: State -> bool)
    requires CanReach(s, b, annotated, goal) && forall t :: goal(t) ==> weaker(t)
    ensures CanReach(s, b, annotated, weaker)
  {
    var run: seq<Step> :| AreAllowed(run, annotated) && goal(After(s, b, run, |run|));
    assert weaker(After(s, b, run, |run|));
  }

  // ---------------------------------------------------------------- names nobody uses

  lemma {:induction false} LongestName(names: set<string>) returns (n: nat)
    ensures forall k :: k in names ==> |k| <= n
    decreases names
  {
    n := 0;
    if names != {} {
      var k :| k in names;
      n := LongestName(names - {k});
      n := if |k| < n then n else |k|;
    }
  }

  lemma FreshName(names: set<string>) returns (c: string)
    ensures c !in names
  {
    var n := LongestName(names);
    c := seq(n + 1, i => 'a');
  }

  // ---------------------------------------------------------------- a waiting scale-up

  predicate IsFinished(s: State, c: string) {
    c in s.configs && s.configs[c].phase == Finished
  }

  ghost function Finishes(c: string): State -> bool {
    s => IsFinished(s, c)
  }

  /** A scale-up waits in Stable while its selection and its handling act. */
  ghost predicate ScalesUp(s: State, b: Bounds, c: string) {
    Inv(s, b) && c in s.configs && s.configs[c].phase == Stable && HasSelecting(s, c)
  }

  /** A worker is off, and the ranking can rate it, or somebody may still annotate it. */
  ghost predicate CouldWake(s: State, annotated: bool) {
    exists n :: n in s.machines && IsScaleUpCandidate(s.machines[n]) && (annotated || IsRankedUp(s.machines[n]))
  }

  ghost predicate SelectionIs(s: State, c: string, p: SelectPhase) {
    HasSelecting(s, c) && s.selectings[SelectingName(c)].phase == p
  }

  ghost predicate SelectionPending(s: State, c: string) {
    HasSelecting(s, c) && var p := s.selectings[SelectingName(c)].phase; p == SelectNew || p == SelectRunning
  }

  ghost predicate HandlingPending(s: State, c: string) {
    HasHandling(s, c) && !HasActed(s.handlings[HandlingName(c)])
  }

  /** The request is met, or a handling is still to act, or a selection is and finds a node. */
  ghost predicate CanFinish(s: State, c: string, annotated: bool)
    requires c in s.configs
  {
    || Workers(s) == s.configs[c].required
    || HandlingPending(s, c)
    || (SelectionPending(s, c) && CouldWake(s, annotated))
  }

  lemma ScalesUpFacts(s: State, b: Bounds, c: string)
    requires ScalesUp(s, b, c)
    ensures NamesOk(s) && Legacy(s) == 0
    ensures s.selectings[SelectingName(c)].config == c && s.selectings[SelectingName(c)].scaling == 1
    ensures HasHandling(s, c) <==> s.selectings[SelectingName(c)].phase == SelectCompleted
    ensures HasHandling(s, c) ==>
      s.handlings[HandlingName(c)].config == c && s.handlings[HandlingName(c)].scaling == 1
    ensures Workers(s) == s.configs[c].required || Workers(s) == s.configs[c].required - 1
    ensures SelectionPending(s, c) || HandlingPending(s, c) ==> Workers(s) == s.configs[c].required - 1
    ensures CountsAgreeEnough(b, 0) && s.configs[c].minNodes <= s.configs[c].required <= s.configs[c].maxNodes
    ensures |CountedNodes(s.machines)| == Workers(s)
  {
    InvAt(s, b, c);
    InvParts(s, b);
    SelectingOwner(s, c);
    if HasHandling(s, c) { HandlingOwner(s, c); }
    CountsDifferByLegacy(s.machines);
    hide Inv, ActiveWorkers, LegacyNodes, CountedNodes, SelectingName, HandlingName, NamesOk;
  }

  lemma MetFinishes(s: State, b: Bounds, c: string, annotated: bool)
    requires ScalesUp(s, b, c) && Workers(s) == s.configs[c].required
    ensures CanReach(s, b, annotated, Finishes(c))
  {
    ScalesUpFacts(s, b, c);
    hide ScalesUp, Workers, CountedNodes, CreateNodeSelecting, CanReach;
    var t := Next(s, b, Configure(c));
    var u := Next(t, b, Configure(c));
    assert t.configs[c].phase == Completed && t.machines == s.machines;
    assert IsFinished(u, c);
    hide Next, IsFinished;
    ReachedNow(u, b, annotated, Finishes(c));
    ReachedLater(t, b, Configure(c), annotated, Finishes(c));
    ReachedLater(s, b, Configure(c), annotated, Finishes(c));
  }

  /** No other selection, and no other handling, belongs to the same configuration. */
  lemma NoRival(s: State, k: string)
    requires NamesOk(s)
    ensures k in s.selectings ==>
      !exists j :: j in s.selectings && j != k && s.selectings[j].config == s.selectings[k].config
                   && s.selectings[j].phase == SelectRunning
    ensures k in s.handlings ==>
      !exists j :: j in s.handlings && j != k && s.handlings[j].config == s.handlings[k].config
                   && s.handlings[j].phase == HandleRunning
  {
    hide SelectingName, HandlingName;
  }

  lemma OthersKeepConfig(s: State, b: Bounds, c: string, step: Step)
    requires c in s.configs && HasSelecting(s, c) && !step.Configure?
    ensures c in Next(s, b, step).configs && Next(s, b, step).configs[c] == s.configs[c]
    ensures HasSelecting(Next(s, b, step), c)
  {
    hide ReconcileConfig, ActiveWorkers, SelectingName, HandlingName, SwitchedOn, SwitchedOff, IsEligible,
         HasNodeToWake;
  }

  lemma ScalesUpNext(s: State, b: Bounds, c: string, step: Step)
    requires ScalesUp(s, b, c) && !step.Configure?
    ensures ScalesUp(Next(s, b, step), b, c)
  {
    NextKeepsInv(s, b, step);
    OthersKeepConfig(s, b, c, step);
    hide Inv, Next, HasSelecting;
  }

  /** A handling that succeeds meets the request. */
  lemma HandlingMeets(s: State, b: Bounds, c: string)
    requires ScalesUp(s, b, c) && HasHandling(s, c) && s.handlings[HandlingName(c)].phase == HandleRunning
    ensures var t := ReconcileHandling(s, HandlingName(c), Success);
            t.configs == s.configs && Workers(t) == s.configs[c].required
  {
    ScalesUpFacts(s, b, c);
    InvAt(s, b, c);
    PendingHandling(s, c, Workers(s), Legacy(s));
    hide ReconcileHandling, ScalesUp, Inv, OpenOk, NamesOk, Workers, Legacy, CountedNodes, HandlingName, SelectingName;
    HandleCounts(s, HandlingName(c), Success);
  }

  lemma RunningHandlingFinishes(s: State, b: Bounds, c: string, annotated: bool)
    requires ScalesUp(s, b, c) && HasHandling(s, c) && s.handlings[HandlingName(c)].phase == HandleRunning
    ensures CanReach(s, b, annotated, Finishes(c))
  {
    var step := Handle(HandlingName(c), Success);
    HandleIsStep(s, b, step);
    HandlingMeets(s, b, c);
    ScalesUpNext(s, b, c, step);
    assert c in s.configs;
    hide ReconcileHandling, ScalesUp, Workers, HandlingName, HasHandling, Next, CanReach;
    MetFinishes(Next(s, b, step), b, c, annotated);
    ReachedLater(s, b, step, annotated, Finishes(c));
  }

  lemma HandleIsStep(s: State, b: Bounds, step: Step)
    requires step.Handle?
    ensures Next(s, b, step) == ReconcileHandling(s, step.name, step.outcome)
  {
    hide ReconcileHandling;
  }

  /** A new handling starts, and nothing else happens. */
  lemma HandlingStarts(s: State, b: Bounds, k: string, outcome: Outcome)
    requires NamesOk(s) && k in s.handlings && s.handlings[k].phase == HandleNew
    ensures Next(s, b, Handle(k, outcome)) == s.(handlings := s.handlings[k := s.handlings[k].(phase := HandleRunning)])
  {
    NoRival(s, k);
    hide NamesOk;
  }

  lemma SelectionStarts(s: State, b: Bounds, k: string, choice: string)
    requires NamesOk(s) && k in s.selectings && s.selectings[k].phase == SelectNew
    ensures Next(s, b, Select(k, choice))
             == s.(selectings := s.selectings[k := s.selectings[k].(phase := SelectRunning)])
  {
    NoRival(s, k);
    hide NamesOk, IsEligible, HasNodeToWake;
  }

  lemma PendingHandlingFinishes(s: State, b: Bounds, c: string, annotated: bool)
    requires ScalesUp(s, b, c) && HandlingPending(s, c)
    ensures CanReach(s, b, annotated, Finishes(c))
  {
    var step := Handle(HandlingName(c), Success);
    if s.handlings[HandlingName(c)].phase == HandleRunning {
      RunningHandlingFinishes(s, b, c, annotated);
    } else {
      ScalesUpFacts(s, b, c);
      HandlingStarts(s, b, HandlingName(c), Success);
      ScalesUpNext(s, b, c, step);
      hide ScalesUp, NamesOk, SelectingName, HandlingName, Next, CanReach;
      RunningHandlingFinishes(Next(s, b, step), b, c, annotated);
      ReachedLater(s, b, step, annotated, Finishes(c));
    }
  }

  /** An eligible choice becomes a pending handling. */
  lemma SelectionChooses(s: State, b: Bounds, c: string, choice: string)
    requires NamesOk(s) && HasSelecting(s, c) && s.selectings[SelectingName(c)].config == c
    requires s.selectings[SelectingName(c)].phase == SelectRunning && !HasHandling(s, c)
    requires IsEligible(s, s.selectings[SelectingName(c)].scaling, choice)
    ensures var t := Next(s, b, Select(SelectingName(c), choice));
            && t.configs == s.configs && t.machines == s.machines && HasHandling(t, c)
            && t.handlings[HandlingName(c)].phase == HandleNew
            && HasSelecting(t, c) && t.selectings[SelectingName(c)].phase == SelectCompleted
  {
    hide NamesOk, IsEligible, HasNodeToWake, SelectingName, HandlingName;
  }

  lemma RunningSelectionFinishes(s: State, b: Bounds, c: string, annotated: bool)
    requires ScalesUp(s, b, c) && s.selectings[SelectingName(c)].phase == SelectRunning && HasNodeToWake(s)
    ensures CanReach(s, b, annotated, Finishes(c))
  {
    ScalesUpFacts(s, b, c);
    var n :| n in s.machines && CanWake(s.machines[n]);
    var step := Select(SelectingName(c), n);
    ScalesUpNext(s, b, c, step);
    SelectionChooses(s, b, c, n);
    hide ScalesUp, NamesOk, SelectingName, HandlingName, Next, CanReach;
    PendingHandlingFinishes(Next(s, b, step), b, c, annotated);
    ReachedLater(s, b, step, annotated, Finishes(c));
  }

  lemma PendingSelectionWakes(s: State, b: Bounds, c: string, annotated: bool)
    requires ScalesUp(s, b, c) && SelectionPending(s, c) && HasNodeToWake(s)
    ensures CanReach(s, b, annotated, Finishes(c))
  {
    var step := Select(SelectingName(c), "");
    if s.selectings[SelectingName(c)].phase == SelectRunning {
      RunningSelectionFinishes(s, b, c, annotated);
    } else {
      ScalesUpFacts(s, b, c);
      SelectionStarts(s, b, SelectingName(c), "");
      ScalesUpNext(s, b, c, step);
      hide ScalesUp, NamesOk, SelectingName, HandlingName, Next, CanReach;
      RunningSelectionFinishes(Next(s, b, step), b, c, annotated);
      ReachedLater(s, b, step, annotated, Finishes(c));
    }
  }

  /** Annotating a node that is off makes it one to wake. */
  lemma AnnotatedWakes(s: State, b: Bounds, c: string, n: string)
    requires c in s.configs && SelectionPending(s, c) && n in s.machines && IsScaleUpCandidate(s.machines[n])
    ensures var t := Next(s, b, Annotate(n, Parsed(0), Parsed(0.0))); SelectionPending(t, c) && HasNodeToWake(t)
  {
    hide SelectingName;
    var t := Next(s, b, Annotate(n, Parsed(0), Parsed(0.0)));
    assert CanWake(t.machines[n]);
  }

  lemma PendingSelectionFinishes(s: State, b: Bounds, c: string, annotated: bool)
    requires ScalesUp(s, b, c) && SelectionPending(s, c) && CouldWake(s, annotated)
    ensures CanReach(s, b, annotated, Finishes(c))
  {
    var n :| n in s.machines && IsScaleUpCandidate(s.machines[n]) && (annotated || IsRankedUp(s.machines[n]));
    assert c in s.configs;
    if IsRankedUp(s.machines[n]) {
      assert CanWake(s.machines[n]);
      hide ScalesUp, CanReach;
      PendingSelectionWakes(s, b, c, annotated);
    } else {
      var step := Annotate(n, Parsed(0), Parsed(0.0));
      ScalesUpNext(s, b, c, step);
      hide ScalesUp, SelectionPending, HasNodeToWake, CanReach, Next, IsScaleUpCandidate, IsRankedUp;
      AnnotatedWakes(s, b, c, n);
      PendingSelectionWakes(Next(s, b, step), b, c, annotated);
      ReachedLater(s, b, step, annotated, Finishes(c));
    }
  }

  // ---------------------------------------------------------------- a scale-up that never ends

  ghost predicate Stuck(s: State, b: Bounds, c: string, annotated: bool) {
    ScalesUp(s, b, c) && !CanFinish(s, c, annotated)
  }

  /** Nothing of c will change the worker count any more, and every other configuration is over. */
  lemma StuckFacts(s: State, b: Bounds, c: string, annotated: bool)
    requires Stuck(s, b, c, annotated)
    ensures OthersOver(s, c)
    ensures HasHandling(s, c) ==> HasActed(s.handlings[HandlingName(c)])
    ensures ReconcileConfig(s, c) == s
  {
    ScalesUpFacts(s, b, c);
    StableIs(s, c);
    OnlyOpen(s, b, c);
    hide Inv, NamesOk, SelectingName, HandlingName, ActiveWorkers, LegacyNodes, CountedNodes, HandleStable, OthersOver;
  }

  /** c is the only open configuration, and nothing belonging to another one is still to act. */
  ghost predicate OthersOver(s: State, c: string) {
    && ScalingInProgress(s) && NamesOk(s)
    && forall a :: a in s.configs && a != c ==> IsTerminal(s.configs[a].phase) && Settled(s, a)
  }

  lemma OnlyOpen(s: State, b: Bounds, c: string)
    requires Inv(s, b) && c in s.configs && !IsTerminal(s.configs[c].phase)
    ensures OthersOver(s, c)
  {
    forall a | a in s.configs && a != c ensures IsTerminal(s.configs[a].phase) && Settled(s, a) { InvAt(s, b, a); }
    hide ConfigsOk, NamesOk, SelectingName, HandlingName, ActiveWorkers, LegacyNodes, Settled;
  }

  lemma OthersDoNothing(s: State, b: Bounds, c: string, step: Step)
    requires OthersOver(s, c)
    ensures step.Forecast? || step.Reactive? || (step.Configure? && step.name != c) ==> Next(s, b, step) == s
    ensures step.Handle? && step.name != HandlingName(c) ==> Next(s, b, step) == s
    ensures step.Select? && step.name != SelectingName(c) ==> Next(s, b, step) == s
  {
    hide SelectingName, HandlingName, HandleStable, HandleInitial, HandleSelecting, HandleSwitching,
         HandleCompletedPhase, IsEligible, HasNodeToWake, SwitchedOn, SwitchedOff;
    if step.Handle? && step.name in s.handlings { HandlingOwner(s, s.handlings[step.name].config); }
    if step.Select? && step.name in s.selectings { SelectingOwner(s, s.selectings[step.name].config); }
  }

  lemma StuckSelect(s: State, b: Bounds, c: string, annotated: bool, choice: string)
    requires Stuck(s, b, c, annotated)
    ensures var t := Next(s, b, Select(SelectingName(c), choice));
            && t.configs == s.configs && t.handlings == s.handlings && t.machines == s.machines
            && (SelectionPending(t, c) ==> SelectionPending(s, c))
  {
    ScalesUpFacts(s, b, c);
    hide Inv, SelectingName, HandlingName;
  }

  lemma StuckMark(s: State, b: Bounds, c: string, annotated: bool, node: string, m: Machine)
    requires Stuck(s, b, c, annotated) && node in s.machines
    requires m.role == s.machines[node].role && m.ready == s.machines[node].ready
    requires annotated || IsRankedUp(m) == IsRankedUp(s.machines[node])
    requires ScalesUp(WithMachine(s, node, m), b, c)
    ensures Stuck(WithMachine(s, node, m), b, c, annotated)
    ensures Workers(WithMachine(s, node, m)) == Workers(s)
  {
    SameReadiness(s.machines, node, m);
    hide ScalesUp, SelectingName, HandlingName, ActiveWorkers, IsRankedUp;
  }

  lemma StuckMarkStep(s: State, b: Bounds, c: string, annotated: bool, step: Step)
    requires Stuck(s, b, c, annotated) && IsAllowed(step, annotated) && (step.Cordon? || step.Annotate?)
    ensures Stuck(Next(s, b, step), b, c, annotated)
    ensures Next(s, b, step).configs == s.configs && Workers(Next(s, b, step)) == Workers(s)
  {
    ScalesUpNext(s, b, c, step);
    hide Stuck, ScalesUp, Workers;
    if step.node in s.machines { StuckMark(s, b, c, annotated, step.node, Next(s, b, step).machines[step.node]); }
  }

  lemma StuckSelectStep(s: State, b: Bounds, c: string, annotated: bool, choice: string)
    requires Stuck(s, b, c, annotated)
    ensures var t := Next(s, b, Select(SelectingName(c), choice));
            Stuck(t, b, c, annotated) && t.configs == s.configs && Workers(t) == Workers(s)
  {
    StuckSelect(s, b, c, annotated, choice);
    ScalesUpNext(s, b, c, Select(SelectingName(c), choice));
    hide ScalesUp, Next, SelectingName, HandlingName;
  }

  /** Its handling, if any, has acted. */
  lemma StuckHandleStep(s: State, b: Bounds, c: string, outcome: Outcome)
    requires HasHandling(s, c) ==> HasActed(s.handlings[HandlingName(c)])
    ensures Next(s, b, Handle(HandlingName(c), outcome)) == s
  {
  }

  lemma StuckStep(s: State, b: Bounds, c: string, annotated: bool, step: Step)
    requires Stuck(s, b, c, annotated) && IsAllowed(step, annotated)
    ensures Stuck(Next(s, b, step), b, c, annotated)
    ensures Next(s, b, step).configs == s.configs && Workers(Next(s, b, step)) == Workers(s)
  {
    StuckFacts(s, b, c, annotated);
    OthersDoNothing(s, b, c, step);
    hide Stuck, OthersOver, Workers, SelectingName, HandlingName, ReconcileConfig, ReconcileSelecting,
         ReconcileHandling;
    if step.Cordon? || step.Annotate? {
      StuckMarkStep(s, b, c, annotated, step);
    } else if step.Select? && step.name == SelectingName(c) {
      StuckSelectStep(s, b, c, annotated, step.choice);
    } else if step.Handle? && step.name == HandlingName(c) {
      StuckHandleStep(s, b, c, step.outcome);
    }
  }

  lemma {:induction false} StuckForever(s: State, b: Bounds, c: string, annotated: bool, run: seq<Step>, n: nat)
    requires Stuck(s, b, c, annotated) && n <= |run| && AreAllowed(run, annotated)
    ensures Stuck(After(s, b, run, n), b, c, annotated)
    ensures After(s, b, run, n).configs == s.configs && Workers(After(s, b, run, n)) == Workers(s)
  {
    hide Stuck, Next;
    if n > 0 {
      StuckForever(s, b, c, annotated, run, n - 1);
      StuckStep(After(s, b, run, n - 1), b, c, annotated, run[n - 1]);
    }
  }

  /** A scale-up that has its selection can finish exactly when its request is met, its handling is
      still to act, or its selection is and finds a node that is off and can be rated. */
  lemma {:induction false} ScaleUpFinishesIff(s: State, b: Bounds, c: string, annotated: bool)
    requires ScalesUp(s, b, c)
    ensures CanReach(s, b, annotated, Finishes(c)) <==> CanFinish(s, c, annotated)
  {
    if CanFinish(s, c, annotated) {
      hide ScalesUp, CanReach;
      if Workers(s) == s.configs[c].required {
        MetFinishes(s, b, c, annotated);
      } else if HandlingPending(s, c) {
        PendingHandlingFinishes(s, b, c, annotated);
      } else {
        PendingSelectionFinishes(s, b, c, annotated);
      }
    } else {
      hide After;
      forall run: seq<Step> | AreAllowed(run, annotated) ensures !Finishes(c)(After(s, b, run, |run|)) {
        StuckForever(s, b, c, annotated, run, |run|);
      }
    }
  }

  /** Otherwise no run ever creates another configuration or moves the worker count: the autoscaler
      has stopped. */
  lemma {:induction false} FailedScaleUpBlocksForever(
    s: State, b: Bounds, c: string, annotated: bool, run: seq<Step>, n: nat)
    requires ScalesUp(s, b, c) && !CanFinish(s, c, annotated) && n <= |run| && AreAllowed(run, annotated)
    ensures After(s, b, run, n).configs == s.configs
    ensures Workers(After(s, b, run, n)) == Workers(s) == s.configs[c].required - 1
  {
    StuckForever(s, b, c, annotated, run, n);
    ScalesUpFacts(s, b, c);
    hide ScalesUp, After;
  }
}
