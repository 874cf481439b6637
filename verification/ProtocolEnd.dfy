/** When an open configuration can still end, and that the failing state is reachable. */
module ProtocolEnd {
  import opened Protocol
  import opened ProtocolSafety
  import opened ProtocolReach

  predicate IsOver(s: State, c: string) {
    c in s.configs && IsTerminal(s.configs[c].phase)
  }

  ghost function Ends(c: string): State -> bool {
    s => IsOver(s, c)
  }

  /** c asks for one worker more, and no worker is left to switch on. */
  ghost predicate IsDoomed(s: State, c: string, annotated: bool)
    requires c in s.configs
  {
    && Legacy(s) == 0 && Workers(s) == s.configs[c].required - 1
    && match s.configs[c].phase
       case New => !CouldWake(s, annotated)
       case Stable => if HasSelecting(s, c) then !CanFinish(s, c, annotated) else !CouldWake(s, annotated)
       case _ => false
  }

  ghost predicate IsOpen(s: State, b: Bounds, c: string) {
    Inv(s, b) && c in s.configs && !IsTerminal(s.configs[c].phase)
  }

  ghost predicate InStage(s: State, b: Bounds, c: string, p: ConfigPhase) {
    Inv(s, b) && c in s.configs && s.configs[c].phase == p
  }

  // ---------------------------------------------------------------- towards the end, backwards

  /** One reconcile call on c. */
  lemma ConfigureStep(s: State, b: Bounds, c: string, annotated: bool)
    requires Inv(s, b) && c in s.configs
    ensures Inv(ReconcileConfig(s, c), b)
    ensures CanReach(ReconcileConfig(s, c), b, annotated, Ends(c)) ==> CanReach(s, b, annotated, Ends(c))
  {
    var step := Configure(c);
    NextKeepsInv(s, b, step);
    hide Inv, ReconcileConfig, CanReach;
    assert Next(s, b, step) == ReconcileConfig(s, c);
    if CanReach(ReconcileConfig(s, c), b, annotated, Ends(c)) { ReachedLater(s, b, step, annotated, Ends(c)); }
  }

  lemma EndsNow(s: State, b: Bounds, c: string, annotated: bool)
    requires Inv(s, b) && c in s.configs && IsOver(ReconcileConfig(s, c), c)
    ensures CanReach(s, b, annotated, Ends(c))
  {
    hide Inv, ReconcileConfig, IsOver, CanReach;
    ReachedNow(ReconcileConfig(s, c), b, annotated, Ends(c));
    ConfigureStep(s, b, c, annotated);
  }

  lemma CompletedEnds(s: State, b: Bounds, c: string, annotated: bool)
    requires InStage(s, b, c, Completed)
    ensures CanReach(s, b, annotated, Ends(c))
  {
    hide Inv, CountedNodes, HandleStable, HandleInitial, HandleSelecting, HandleSwitching, CanReach;
    EndsNow(s, b, c, annotated);
  }

  /** Where a configuration goes whose handling has acted. */
  lemma ActedMoves(s: State, c: string)
    requires NamesOk(s) && c in s.configs && s.configs[c].phase == Switching
    requires HasHandling(s, c) && HasActed(s.handlings[HandlingName(c)])
    ensures var t := ReconcileConfig(s, c);
            c in t.configs && (t.configs[c].phase == Completed || IsTerminal(t.configs[c].phase))
  {
    SwitchingIs(s, c);
    hide NamesOk, HandleStable, HandleInitial, HandleSelecting, HandleSwitching, HandleCompletedPhase, HandlingName;
  }

  lemma ActedEnds(s: State, b: Bounds, c: string, annotated: bool)
    requires InStage(s, b, c, Switching) && HasHandling(s, c) && HasActed(s.handlings[HandlingName(c)])
    ensures CanReach(s, b, annotated, Ends(c))
  {
    InvParts(s, b);
    ActedMoves(s, c);
    ConfigureStep(s, b, c, annotated);
    hide Inv, NamesOk, ReconcileConfig, HasHandling, HasActed, HandlingName, CanReach;
    var t := ReconcileConfig(s, c);
    if t.configs[c].phase == Completed {
      CompletedEnds(t, b, c, annotated);
    } else {
      EndsNow(s, b, c, annotated);
    }
  }

  lemma HandleKeepsChildren(s: State, c: string, outcome: Outcome)
    requires HasHandling(s, c)
    ensures var t := ReconcileHandling(s, HandlingName(c), outcome);
            && t.configs == s.configs && HasHandling(t, c)
            && (s.handlings[HandlingName(c)].phase == HandleRunning ==> HasActed(t.handlings[HandlingName(c)]))
  {
    hide HandlingName, SwitchedOn, SwitchedOff;
  }

  lemma HandleStepKeeps(s: State, b: Bounds, c: string, outcome: Outcome)
    requires InStage(s, b, c, Switching) && HasHandling(s, c)
    ensures var t := Next(s, b, Handle(HandlingName(c), outcome));
            && InStage(t, b, c, Switching) && HasHandling(t, c)
            && (s.handlings[HandlingName(c)].phase == HandleRunning ==> HasActed(t.handlings[HandlingName(c)]))
  {
    var step := Handle(HandlingName(c), outcome);
    NextKeepsInv(s, b, step);
    HandleIsStep(s, b, step);
    HandleKeepsChildren(s, c, outcome);
    hide Inv, HandlingName, Next, ReconcileHandling;
  }

  lemma RunningHandlingEnds(s: State, b: Bounds, c: string, annotated: bool)
    requires InStage(s, b, c, Switching) && HasHandling(s, c)
    requires s.handlings[HandlingName(c)].phase == HandleRunning
    ensures CanReach(s, b, annotated, Ends(c))
  {
    var step := Handle(HandlingName(c), Success);
    HandleStepKeeps(s, b, c, Success);
    hide InStage, Next, HandlingName, CanReach;
    ActedEnds(Next(s, b, step), b, c, annotated);
    ReachedLater(s, b, step, annotated, Ends(c));
  }

  lemma SwitchingEnds(s: State, b: Bounds, c: string, annotated: bool)
    requires InStage(s, b, c, Switching)
    ensures CanReach(s, b, annotated, Ends(c))
  {
    InvAt(s, b, c);
    InvParts(s, b);
    assert HasHandling(s, c) by { hide Inv, NamesOk, SelectingName, HandlingName; }
    var p := s.handlings[HandlingName(c)].phase;
    hide Inv, OpenOk, CanReach;
    if p == HandleNew {
      var step := Handle(HandlingName(c), Success);
      HandlingStarts(s, b, HandlingName(c), Success);
      HandleStepKeeps(s, b, c, Success);
      hide Next, NamesOk, HandlingName;
      RunningHandlingEnds(Next(s, b, step), b, c, annotated);
      ReachedLater(s, b, step, annotated, Ends(c));
    } else if p == HandleRunning {
      RunningHandlingEnds(s, b, c, annotated);
    } else {
      ActedEnds(s, b, c, annotated);
    }
  }

  lemma SelectedEnds(s: State, b: Bounds, c: string, annotated: bool)
    requires InStage(s, b, c, Selecting) && (SelectionIs(s, c, SelectCompleted) || SelectionIs(s, c, SelectFailed))
    ensures CanReach(s, b, annotated, Ends(c))
  {
    InvParts(s, b);
    SelectingIs(s, c);
    ConfigureStep(s, b, c, annotated);
    hide Inv, NamesOk, HandleSelecting, SelectingName, CanReach;
    if SelectionIs(s, c, SelectCompleted) {
      SwitchingEnds(ReconcileConfig(s, c), b, c, annotated);
    } else {
      EndsNow(s, b, c, annotated);
    }
  }

  lemma SelectStepKeeps(s: State, b: Bounds, c: string, choice: string)
    requires InStage(s, b, c, Selecting) && HasSelecting(s, c)
    ensures InStage(Next(s, b, Select(SelectingName(c), choice)), b, c, Selecting)
  {
    NextKeepsInv(s, b, Select(SelectingName(c), choice));
    hide Inv, SelectingName, HandlingName, IsEligible, HasNodeToWake;
  }

  /** A scale-down that finds no node to switch off fails. */
  lemma RunningSelectionEnds(s: State, b: Bounds, c: string, annotated: bool)
    requires InStage(s, b, c, Selecting) && SelectionIs(s, c, SelectRunning)
    ensures CanReach(s, b, annotated, Ends(c))
  {
    InvAt(s, b, c);
    assert s.selectings[SelectingName(c)].scaling < 0 by { hide Inv, SelectingName, HandlingName; }
    var none := FreshName(s.machines.Keys);
    var step := Select(SelectingName(c), none);
    SelectStepKeeps(s, b, c, none);
    hide Inv, OpenOk, SelectingName, CanReach, HasNodeToWake;
    assert SelectionIs(Next(s, b, step), c, SelectFailed);
    hide Next;
    SelectedEnds(Next(s, b, step), b, c, annotated);
    ReachedLater(s, b, step, annotated, Ends(c));
  }

  lemma SelectingEnds(s: State, b: Bounds, c: string, annotated: bool)
    requires InStage(s, b, c, Selecting)
    ensures CanReach(s, b, annotated, Ends(c))
  {
    InvAt(s, b, c);
    InvParts(s, b);
    assert HasSelecting(s, c) by { hide Inv, NamesOk, SelectingName, HandlingName; }
    var p := s.selectings[SelectingName(c)].phase;
    hide Inv, OpenOk, CanReach;
    if p == SelectNew {
      var step := Select(SelectingName(c), "");
      SelectionStarts(s, b, SelectingName(c), "");
      SelectStepKeeps(s, b, c, "");
      hide Next, NamesOk, SelectingName;
      RunningSelectionEnds(Next(s, b, step), b, c, annotated);
      ReachedLater(s, b, step, annotated, Ends(c));
    } else if p == SelectRunning {
      RunningSelectionEnds(s, b, c, annotated);
    } else {
      SelectedEnds(s, b, c, annotated);
    }
  }

  lemma ScaleUpEnds(s: State, b: Bounds, c: string, annotated: bool)
    requires ScalesUp(s, b, c) && CanFinish(s, c, annotated)
    ensures CanReach(s, b, annotated, Ends(c))
  {
    hide ScalesUp, CanFinish, CanReach;
    ScaleUpFinishesIff(s, b, c, annotated);
    ReachedWeaker(s, b, annotated, Finishes(c), Ends(c));
  }

  /** A Stable configuration without a selection, seen from its counts. */
  lemma StableFacts(s: State, b: Bounds, c: string)
    requires InStage(s, b, c, Stable) && !HasSelecting(s, c)
    ensures IsAdjacent(Workers(s), s.configs[c].required)
    ensures |CountedNodes(s.machines)| == Workers(s) + Legacy(s)
    ensures s.configs[c].required <= b.max && s.configs[c].minNodes == b.min && s.configs[c].maxNodes == b.max
    ensures NamesOk(s) && (Legacy(s) == 0 ==> b.min <= s.configs[c].required)
  {
    CountsDifferByLegacy(s.machines);
    InvAt(s, b, c);
    InvParts(s, b);
    hide Inv, NamesOk, SelectingName, HandlingName, CountedNodes, ActiveWorkers, LegacyNodes;
  }

  lemma StableMeetsEnds(s: State, b: Bounds, c: string, annotated: bool)
    requires InStage(s, b, c, Stable) && |CountedNodes(s.machines)| == s.configs[c].required
    ensures CanReach(s, b, annotated, Ends(c))
  {
    ConfigureStep(s, b, c, annotated);
    hide Inv, CountedNodes, CanReach, CreateNodeSelecting;
    assert ReconcileConfig(s, c).configs[c].phase == Completed;
    hide ReconcileConfig;
    CompletedEnds(ReconcileConfig(s, c), b, c, annotated);
  }

  lemma StableFailsEnds(s: State, b: Bounds, c: string, annotated: bool)
    requires InStage(s, b, c, Stable) && |CountedNodes(s.machines)| != s.configs[c].required
    requires s.configs[c].required < s.configs[c].minNodes
    ensures CanReach(s, b, annotated, Ends(c))
  {
    hide Inv, CountedNodes, CanReach, CreateNodeSelecting;
    assert IsOver(ReconcileConfig(s, c), c);
    hide ReconcileConfig;
    EndsNow(s, b, c, annotated);
  }

  lemma StableMovesEnds(s: State, b: Bounds, c: string, annotated: bool)
    requires InStage(s, b, c, Stable) && !HasSelecting(s, c) && !IsDoomed(s, c, annotated)
    requires |CountedNodes(s.machines)| != s.configs[c].required
    requires b.min <= s.configs[c].required
    ensures CanReach(s, b, annotated, Ends(c))
  {
    StableFacts(s, b, c);
    StableIs(s, c);
    ConfigureStep(s, b, c, annotated);
    var t := ReconcileConfig(s, c);
    assert t == HandleStable(s, c);
    hide Inv, NamesOk, ReconcileConfig, HandleStable, CountedNodes, ActiveWorkers, LegacyNodes, SelectingName,
         HandlingName, CanReach;
    if |CountedNodes(s.machines)| > s.configs[c].required {
      SelectingEnds(t, b, c, annotated);
    } else {
      assert t == WithSelecting(s, c, s.configs[c].required - |CountedNodes(s.machines)|);
      ScaleUpEnds(t, b, c, annotated);
    }
  }

  lemma StableEnds(s: State, b: Bounds, c: string, annotated: bool)
    requires InStage(s, b, c, Stable) && !HasSelecting(s, c) && !IsDoomed(s, c, annotated)
    ensures CanReach(s, b, annotated, Ends(c))
  {
    StableFacts(s, b, c);
    hide Inv, NamesOk, IsDoomed, CountedNodes, HasSelecting, CanReach;
    if |CountedNodes(s.machines)| == s.configs[c].required {
      StableMeetsEnds(s, b, c, annotated);
    } else if s.configs[c].required < b.min {
      StableFailsEnds(s, b, c, annotated);
    } else {
      StableMovesEnds(s, b, c, annotated);
    }
  }

  lemma NewEnds(s: State, b: Bounds, c: string, annotated: bool)
    requires InStage(s, b, c, New) && !IsDoomed(s, c, annotated)
    ensures CanReach(s, b, annotated, Ends(c))
  {
    InvAt(s, b, c);
    assert !HasSelecting(s, c) by { hide Inv, SelectingName, HandlingName; }
    ConfigureStep(s, b, c, annotated);
    hide Inv, OpenOk, CountedNodes, ActiveWorkers, LegacyNodes, SelectingName, HandlingName, CanReach;
    StableEnds(ReconcileConfig(s, c), b, c, annotated);
  }

  // ---------------------------------------------------------------- doomed for good

  lemma DoomedNew(s: State, b: Bounds, c: string, annotated: bool)
    requires c in s.configs && s.configs[c].phase == New && IsDoomed(s, c, annotated) && !HasSelecting(s, c)
    ensures ReconcileConfig(s, c).configs[c].phase == Stable && IsDoomed(ReconcileConfig(s, c), c, annotated)
  {
    hide SelectingName, HandlingName, CountedNodes, ActiveWorkers, LegacyNodes, CanFinish,
         HandleStable, HandleSelecting, HandleSwitching, HandleCompletedPhase;
    assert ReconcileConfig(s, c) == HandleInitial(s, c);
  }

  lemma DoomedStable(s: State, c: string, annotated: bool)
    requires NamesOk(s) && c in s.configs && s.configs[c].phase == Stable && IsDoomed(s, c, annotated)
    requires !HasSelecting(s, c) && !HasHandling(s, c)
    requires s.configs[c].minNodes <= s.configs[c].required <= s.configs[c].maxNodes
    ensures ReconcileConfig(s, c) == WithSelecting(s, c, 1)
    ensures IsDoomed(WithSelecting(s, c, 1), c, annotated)
  {
    CountsDifferByLegacy(s.machines);
    StableIs(s, c);
    hide SelectingName, HandlingName, CountedNodes, ActiveWorkers, LegacyNodes, NamesOk,
         HandleInitial, HandleStable, HandleSelecting, HandleSwitching, HandleCompletedPhase;
  }

  /** A doomed configuration without a selection. */
  lemma DoomedFacts(s: State, b: Bounds, c: string, annotated: bool)
    requires IsOpen(s, b, c) && IsDoomed(s, c, annotated) && !ScalesUp(s, b, c)
    ensures NamesOk(s) && !HasSelecting(s, c) && !HasHandling(s, c)
    ensures s.configs[c].minNodes <= s.configs[c].required <= s.configs[c].maxNodes
    ensures s.configs[c].phase == New || s.configs[c].phase == Stable
  {
    InvAt(s, b, c);
    InvParts(s, b);
    assert CountsAgreeEnough(b, 0);
    hide Inv, NamesOk, CanFinish, SelectingName, HandlingName, ActiveWorkers, LegacyNodes, CouldWake;
  }

  lemma DoomedConfigure(s: State, b: Bounds, c: string, annotated: bool)
    requires IsOpen(s, b, c) && IsDoomed(s, c, annotated) && !ScalesUp(s, b, c)
    ensures IsOpen(ReconcileConfig(s, c), b, c) && IsDoomed(ReconcileConfig(s, c), c, annotated)
  {
    NextKeepsInv(s, b, Configure(c));
    DoomedFacts(s, b, c, annotated);
    hide Inv, NamesOk, ReconcileConfig, IsDoomed, ScalesUp, SelectingName, HandlingName;
    assert Next(s, b, Configure(c)) == ReconcileConfig(s, c);
    if s.configs[c].phase == New {
      DoomedNew(s, b, c, annotated);
    } else {
      DoomedStable(s, c, annotated);
    }
  }

  lemma DoomedMark(s: State, b: Bounds, c: string, annotated: bool, node: string, m: Machine)
    requires IsOpen(s, b, c) && IsDoomed(s, c, annotated) && !HasSelecting(s, c) && node in s.machines
    requires m.role == s.machines[node].role && m.ready == s.machines[node].ready
    requires annotated || IsRankedUp(m) == IsRankedUp(s.machines[node])
    ensures IsOpen(WithMachine(s, node, m), b, c) && IsDoomed(WithMachine(s, node, m), c, annotated)
  {
    MarkKeepsInv(s, b, node, m);
    SameReadiness(s.machines, node, m);
    hide Inv, SelectingName, HandlingName, ActiveWorkers, LegacyNodes, IsRankedUp;
  }

  lemma DoomedStuckStep(s: State, b: Bounds, c: string, annotated: bool, step: Step)
    requires ScalesUp(s, b, c) && IsDoomed(s, c, annotated) && IsAllowed(step, annotated)
    ensures IsOpen(Next(s, b, step), b, c) && IsDoomed(Next(s, b, step), c, annotated)
  {
    var t := Next(s, b, step);
    StuckStep(s, b, c, annotated, step);
    ScalesUpFacts(t, b, c);
    hide Next, Inv, NamesOk, CanFinish, CouldWake, Workers, Legacy, CountedNodes, SelectingName, HandlingName;
  }

  lemma DoomedMarkStep(s: State, b: Bounds, c: string, annotated: bool, step: Step)
    requires IsOpen(s, b, c) && IsDoomed(s, c, annotated) && !HasSelecting(s, c)
    requires IsAllowed(step, annotated) && (step.Cordon? || step.Annotate?)
    ensures IsOpen(Next(s, b, step), b, c) && IsDoomed(Next(s, b, step), c, annotated)
  {
    hide IsOpen, IsDoomed, HasSelecting;
    if step.node in s.machines { DoomedMark(s, b, c, annotated, step.node, Next(s, b, step).machines[step.node]); }
  }

  lemma DoomedStep(s: State, b: Bounds, c: string, annotated: bool, step: Step)
    requires IsOpen(s, b, c) && IsDoomed(s, c, annotated) && IsAllowed(step, annotated)
    ensures IsOpen(Next(s, b, step), b, c) && IsDoomed(Next(s, b, step), c, annotated)
  {
    if ScalesUp(s, b, c) {
      hide IsOpen, IsDoomed, ScalesUp, Next;
      DoomedStuckStep(s, b, c, annotated, step);
    } else {
      DoomedFacts(s, b, c, annotated);
      OnlyOpen(s, b, c);
      hide IsOpen, IsDoomed, ScalesUp, NamesOk, OthersOver, HasSelecting, HasHandling, ReconcileConfig,
           ReconcileSelecting,
           ReconcileHandling, SelectingName, HandlingName;
      OthersDoNothing(s, b, c, step);
      if step.Cordon? || step.Annotate? {
        DoomedMarkStep(s, b, c, annotated, step);
      } else if step == Configure(c) {
        DoomedConfigure(s, b, c, annotated);
      } else {
        NoChildrenNoStep(s, b, c, step);
      }
    }
  }

  /** Without a selection and a handling of c, steps on them do nothing. */
  lemma NoChildrenNoStep(s: State, b: Bounds, c: string, step: Step)
    requires !HasSelecting(s, c) && !HasHandling(s, c)
    ensures step.Select? && step.name == SelectingName(c) ==> Next(s, b, step) == s
    ensures step.Handle? && step.name == HandlingName(c) ==> Next(s, b, step) == s
  {
    hide SelectingName, HandlingName;
  }

  lemma {:induction false} DoomedForever(s: State, b: Bounds, c: string, annotated: bool, run: seq<Step>, n: nat)
    requires IsOpen(s, b, c) && IsDoomed(s, c, annotated) && n <= |run| && AreAllowed(run, annotated)
    ensures IsOpen(After(s, b, run, n), b, c) && IsDoomed(After(s, b, run, n), c, annotated)
  {
    hide IsOpen, IsDoomed, Next;
    if n > 0 {
      DoomedForever(s, b, c, annotated, run, n - 1);
      DoomedStep(After(s, b, run, n - 1), b, c, annotated, run[n - 1]);
    }
  }

  /** In every reachable state an open configuration can still end exactly when it is not a request for
      one more worker with none left to switch on. */
  lemma {:induction false} CanEndIff(s: State, b: Bounds, c: string, annotated: bool)
    requires IsOpen(s, b, c)
    ensures CanReach(s, b, annotated, Ends(c)) <==> !IsDoomed(s, c, annotated)
  {
    if IsDoomed(s, c, annotated) {
      forall run: seq<Step> | AreAllowed(run, annotated) ensures !Ends(c)(After(s, b, run, |run|)) {
        DoomedForever(s, b, c, annotated, run, |run|);
        hide After, IsDoomed, Inv;
      }
      hide After, IsDoomed, IsOpen;
    } else {
      hide CanReach;
      match s.configs[c].phase {
        case New => hide Inv, IsDoomed; NewEnds(s, b, c, annotated);
        case Stable =>
          if HasSelecting(s, c) {
            ScalesUpFacts(s, b, c);
            hide Inv, NamesOk, SelectingName, HandlingName;
            ScaleUpEnds(s, b, c, annotated);
          } else {
            hide Inv, IsDoomed;
            StableEnds(s, b, c, annotated);
          }
        case Selecting => hide Inv, IsDoomed; SelectingEnds(s, b, c, annotated);
        case Switching => hide Inv, IsDoomed; SwitchingEnds(s, b, c, annotated);
        case _ => hide Inv, IsDoomed; CompletedEnds(s, b, c, annotated);
      }
    }
  }

  // ---------------------------------------------------------------- the failing state is reachable

  ghost function Blocks(b: Bounds, c: string): State -> bool {
    s => Stuck(s, b, c, true)
  }

  lemma RunningHandlingBlocks(s: State, b: Bounds, c: string)
    requires ScalesUp(s, b, c) && HasHandling(s, c) && s.handlings[HandlingName(c)].phase == HandleRunning
    ensures CanReach(s, b, false, Blocks(b, c))
  {
    var step := Handle(HandlingName(c), Failure(false, false));
    HandlingIsReal(s, b, c);
    ScalesUpNext(s, b, c, step);
    FailedHandlingLeaves(s, b, c);
    ScalesUpFacts(Next(s, b, step), b, c);
    assert c in s.configs;
    hide ScalesUp, NamesOk, Next, Workers, Legacy, CountedNodes, CanReach, SelectingName, HandlingName, CouldWake;
    ReachedNow(Next(s, b, step), b, false, Blocks(b, c));
    ReachedLater(s, b, step, false, Blocks(b, c));
  }

  /** The handling of a scale-up has a node to switch, and its request is not met yet. */
  lemma HandlingIsReal(s: State, b: Bounds, c: string)
    requires ScalesUp(s, b, c) && HandlingPending(s, c)
    ensures var nh := s.handlings[HandlingName(c)]; nh.scaling != 0 && nh.selected in s.machines
    ensures Workers(s) != s.configs[c].required
  {
    ScalesUpFacts(s, b, c);
    InvAt(s, b, c);
    PendingHandling(s, c, Workers(s), Legacy(s));
    hide ScalesUp, Inv, OpenOk, NamesOk, Workers, Legacy, CountedNodes, HandlingName, SelectingName;
  }

  /** A handling that fails without having switched its node. */
  lemma FailedHandlingLeaves(s: State, b: Bounds, c: string)
    requires HasHandling(s, c) && s.handlings[HandlingName(c)].phase == HandleRunning
    requires var nh := s.handlings[HandlingName(c)]; nh.scaling != 0 && nh.selected in s.machines
    ensures var t := Next(s, b, Handle(HandlingName(c), Failure(false, false)));
            && t.configs == s.configs && Workers(t) == Workers(s)
            && HasHandling(t, c) && HasActed(t.handlings[HandlingName(c)])
  {
    var nh := s.handlings[HandlingName(c)];
    SameReadiness(s.machines, nh.selected, s.machines[nh.selected].(unschedulable := false));
    hide HandlingName, ActiveWorkers;
  }

  lemma NewHandlingBlocks(s: State, b: Bounds, c: string)
    requires ScalesUp(s, b, c) && HasHandling(s, c) && s.handlings[HandlingName(c)].phase == HandleNew
    ensures CanReach(s, b, false, Blocks(b, c))
  {
    var step := Handle(HandlingName(c), Success);
    ScalesUpFacts(s, b, c);
    HandlingStarts(s, b, HandlingName(c), Success);
    ScalesUpNext(s, b, c, step);
    hide ScalesUp, NamesOk, Next, CanReach, HandlingName, CountedNodes, Workers, Legacy;
    RunningHandlingBlocks(Next(s, b, step), b, c);
    ReachedLater(s, b, step, false, Blocks(b, c));
  }

  lemma RunningSelectionBlocks(s: State, b: Bounds, c: string)
    requires ScalesUp(s, b, c) && SelectionIs(s, c, SelectRunning)
    ensures CanReach(s, b, false, Blocks(b, c))
  {
    ScalesUpFacts(s, b, c);
    if HasNodeToWake(s) {
      var n :| n in s.machines && CanWake(s.machines[n]);
      var step := Select(SelectingName(c), n);
      ScalesUpNext(s, b, c, step);
      SelectionChooses(s, b, c, n);
      hide ScalesUp, NamesOk, SelectingName, HandlingName, Next, CanReach, Workers, Legacy, CountedNodes;
      NewHandlingBlocks(Next(s, b, step), b, c);
      ReachedLater(s, b, step, false, Blocks(b, c));
    } else {
      var none := FreshName(s.machines.Keys);
      var step := Select(SelectingName(c), none);
      NothingToWake(s, b, c, none);
      ScalesUpNext(s, b, c, step);
      ScalesUpFacts(Next(s, b, step), b, c);
      hide ScalesUp, NamesOk, SelectingName, HandlingName, Next, CanReach, CountedNodes, ActiveWorkers;
      ReachedNow(Next(s, b, step), b, false, Blocks(b, c));
      ReachedLater(s, b, step, false, Blocks(b, c));
    }
  }

  /** A selection that finds no node to switch on fails. */
  lemma NothingToWake(s: State, b: Bounds, c: string, choice: string)
    requires SelectionIs(s, c, SelectRunning) && s.selectings[SelectingName(c)].scaling > 0 && !HasNodeToWake(s)
    ensures var t := Next(s, b, Select(SelectingName(c), choice));
            t.configs == s.configs && t.machines == s.machines && SelectionIs(t, c, SelectFailed)
  {
    hide SelectingName;
  }

  lemma NewSelectionBlocks(s: State, b: Bounds, c: string)
    requires ScalesUp(s, b, c) && SelectionIs(s, c, SelectNew)
    ensures CanReach(s, b, false, Blocks(b, c))
  {
    var step := Select(SelectingName(c), "");
    ScalesUpFacts(s, b, c);
    SelectionStarts(s, b, SelectingName(c), "");
    ScalesUpNext(s, b, c, step);
    hide ScalesUp, NamesOk, Next, CanReach, SelectingName, CountedNodes, Workers, Legacy;
    RunningSelectionBlocks(Next(s, b, step), b, c);
    ReachedLater(s, b, step, false, Blocks(b, c));
  }

  /** A request for one worker more, before its selection exists. */
  ghost predicate AsksForMore(s: State, b: Bounds, c: string, p: ConfigPhase) {
    && InStage(s, b, c, p) && !HasSelecting(s, c)
    && Legacy(s) == 0 && Workers(s) == s.configs[c].required - 1
  }

  lemma StableBlocks(s: State, b: Bounds, c: string)
    requires AsksForMore(s, b, c, Stable)
    ensures CanReach(s, b, false, Blocks(b, c))
  {
    var step := Configure(c);
    NextKeepsInv(s, b, step);
    CountsDifferByLegacy(s.machines);
    InvAt(s, b, c);
    InvParts(s, b);
    StableIs(s, c);
    hide Inv, NamesOk, OpenOk, HandleStable, CountedNodes, ActiveWorkers, LegacyNodes, SelectingName, HandlingName,
         CanReach;
    assert Next(s, b, step) == WithSelecting(s, c, 1);
    hide Next;
    NewSelectionBlocks(Next(s, b, step), b, c);
    ReachedLater(s, b, step, false, Blocks(b, c));
  }

  lemma NewBlocks(s: State, b: Bounds, c: string)
    requires AsksForMore(s, b, c, New)
    ensures CanReach(s, b, false, Blocks(b, c))
  {
    var step := Configure(c);
    NextKeepsInv(s, b, step);
    hide Inv, CountedNodes, ActiveWorkers, LegacyNodes, SelectingName, HandlingName, CanReach,
         HandleStable, HandleSelecting, HandleSwitching, HandleCompletedPhase;
    assert Next(s, b, step) == HandleInitial(s, c);
    hide Next;
    StableBlocks(Next(s, b, step), b, c);
    ReachedLater(s, b, step, false, Blocks(b, c));
  }

  /** From every empty store whose worker count is within bounds and below the upper one, without legacy
      nodes, some run gets stuck for good, whatever nodes there are. */
  lemma {:induction false} EveryClusterCanBlock(s: State, b: Bounds, c: string)
    requires Init(s, b) && Legacy(s) == 0 && Workers(s) < b.max
    ensures CanReach(s, b, false, Blocks(b, c))
  {
    var step := Forecast(c, Grow);
    InitHolds(s, b);
    NextKeepsInv(s, b, step);
    hide Inv, ActiveWorkers, LegacyNodes, SelectingName, HandlingName, CanReach;
    assert Next(s, b, step) == CreateConfig(s, c, Workers(s) + 1, b);
    hide Next;
    NewBlocks(Next(s, b, step), b, c);
    ReachedLater(s, b, step, false, Blocks(b, c));
  }
}
