/** What fair runs do: every actor keeps being called, so an open configuration ends unless it is stuck. */
module ProtocolFair {
  import opened Protocol
  import opened ProtocolSafety
  import opened ProtocolReach
  import opened ProtocolEnd

  // ---------------------------------------------------------------- endless runs

  type Schedule = nat -> Step

  /** The state after the first n steps of an endless run. */
  function At(s: State, b: Bounds, schedule: Schedule, n: nat): State {
    if n == 0 then s else Next(At(s, b, schedule, n - 1), b, schedule(n - 1))
  }

  /** The three reconcilers of a configuration. */
  datatype Actor = Configurer | Selector | Handler

  /** The reconciler is called for c, and a ranking that has a worker to wake does not end in an error. */
  ghost predicate Acts(s: State, c: string, step: Step, a: Actor) {
    match a
    case Configurer => step == Configure(c)
    case Selector =>
      step.Select? && step.name == SelectingName(c) && RanksWell(s, step.name, step.choice)
    case Handler => step.Handle? && step.name == HandlingName(c)
  }

  ghost predicate ActsAfter(s: State, b: Bounds, c: string, schedule: Schedule, a: Actor, n: nat) {
    exists m :: m >= n && Acts(At(s, b, schedule, m), c, schedule(m), a)
  }

  /** Every reconciler of c is called again and again, and the ranking of a running scale-up does not end in
      an error for ever. Nothing is said about the order, about how other calls end, or about what else
      happens in between. */
  ghost predicate IsFair(s: State, b: Bounds, c: string, schedule: Schedule) {
    forall a, n :: ActsAfter(s, b, c, schedule, a, n)
  }

  // ---------------------------------------------------------------- how far c has got

  /** Steps its selection still has to take. */
  ghost function SelectionLeft(s: State, c: string): nat {
    if !HasSelecting(s, c) then 3
    else
      match s.selectings[SelectingName(c)].phase
      case SelectNew => 2
      case SelectRunning => 1
      case _ => 0
  }

  /** Steps its handling still has to take. */
  ghost function HandlingLeft(s: State, c: string): nat {
    if !HasHandling(s, c) then 3
    else
      match s.handlings[HandlingName(c)].phase
      case HandleNew => 2
      case HandleRunning => 1
      case _ => 0
  }

  ghost function Left(s: State, c: string): nat
    requires c in s.configs
  {
    5 - Rank(s.configs[c].phase) + SelectionLeft(s, c) + HandlingLeft(s, c)
  }

  ghost predicate IsPending(left: nat) {
    left == 1 || left == 2
  }

  /** Whose turn it is. */
  ghost function Awaited(s: State, c: string): Actor {
    if IsPending(SelectionLeft(s, c)) then Selector
    else if IsPending(HandlingLeft(s, c)) then Handler
    else Configurer
  }

  // ---------------------------------------------------------------- nothing goes back

  ghost predicate NoFartherBack(s: State, t: State, c: string) {
    SelectionLeft(t, c) <= SelectionLeft(s, c) && HandlingLeft(t, c) <= HandlingLeft(s, c)
  }

  /** Only Stable creates a selection, when there is none. */
  lemma StableKeepsChildren(s: State, c: string)
    requires c in s.configs
    ensures var t := HandleStable(s, c);
            && t.handlings == s.handlings
            && (t.selectings == s.selectings || (!HasSelecting(s, c) && SelectionIs(t, c, SelectNew)))
  {
    hide SelectingName, CountedNodes, SelectingsOf;
  }

  lemma OthersKeepChildren(s: State, c: string)
    requires c in s.configs
    ensures HandleInitial(s, c).handlings == s.handlings && HandleInitial(s, c).selectings == s.selectings
    ensures HandleSelecting(s, c).handlings == s.handlings && HandleSelecting(s, c).selectings == s.selectings
    ensures HandleSwitching(s, c).handlings == s.handlings && HandleSwitching(s, c).selectings == s.selectings
    ensures HandleCompletedPhase(s, c).handlings == s.handlings && HandleCompletedPhase(s, c).selectings == s.selectings
  {
    hide SelectingsOf, HandlingsOf, CountedNodes;
  }

  lemma SamePlace(s: State, t: State, c: string)
    requires t.selectings == s.selectings && t.handlings == s.handlings
    ensures NoFartherBack(s, t, c)
  {
  }

  lemma NewSelectionPlace(s: State, t: State, c: string)
    requires t.handlings == s.handlings && !HasSelecting(s, c) && SelectionIs(t, c, SelectNew)
    ensures NoFartherBack(s, t, c)
  {
  }

  lemma ConfigureKeepsPlace(s: State, c: string)
    requires c in s.configs
    ensures NoFartherBack(s, ReconcileConfig(s, c), c)
  {
    StableKeepsChildren(s, c);
    OthersKeepChildren(s, c);
    hide SelectingName, HandlingName, HandleInitial, HandleStable, HandleSelecting, HandleSwitching,
         HandleCompletedPhase, NoFartherBack, HasSelecting, SelectionIs;
    var t := ReconcileConfig(s, c);
    if t.selectings == s.selectings { SamePlace(s, t, c); } else { NewSelectionPlace(s, t, c); }
  }

  lemma SelectKeepsPlace(s: State, c: string, choice: string)
    requires HasSelecting(s, c)
    ensures NoFartherBack(s, ReconcileSelecting(s, SelectingName(c), choice), c)
  {
    hide SelectingName, HandlingName, IsEligible, HasNodeToWake;
  }

  lemma HandleKeepsPlace(s: State, c: string, outcome: Outcome)
    requires HasHandling(s, c)
    ensures NoFartherBack(s, ReconcileHandling(s, HandlingName(c), outcome), c)
  {
    hide SelectingName, HandlingName, SwitchedOn, SwitchedOff;
  }

  lemma StepKeepsPlace(s: State, b: Bounds, c: string, step: Step)
    requires IsOpen(s, b, c)
    ensures NoFartherBack(s, Next(s, b, step), c)
  {
    OnlyOpen(s, b, c);
    OthersDoNothing(s, b, c, step);
    NoChildren(s, b, c, step);
    hide Inv, OthersOver, NoFartherBack, ReconcileConfig, ReconcileSelecting, ReconcileHandling, SelectingName,
         HandlingName;
    match step {
      case Configure(name) =>
        SamePlace(s, s, c);
        if name == c { ConfigureKeepsPlace(s, c); }
      case Select(name, choice) =>
        SamePlace(s, s, c);
        if name == SelectingName(c) && HasSelecting(s, c) { SelectKeepsPlace(s, c, choice); }
      case Handle(name, outcome) =>
        SamePlace(s, s, c);
        if name == HandlingName(c) && HasHandling(s, c) { HandleKeepsPlace(s, c, outcome); }
      case _ => SamePlace(s, Next(s, b, step), c);
    }
  }

  /** A call for a child that does not exist does nothing. */
  lemma NoChildren(s: State, b: Bounds, c: string, step: Step)
    ensures step.Select? && step.name == SelectingName(c) && !HasSelecting(s, c) ==> Next(s, b, step) == s
    ensures step.Handle? && step.name == HandlingName(c) && !HasHandling(s, c) ==> Next(s, b, step) == s
  {
    hide SelectingName, HandlingName;
  }

  /** Every step leaves c where it was or takes it farther. */
  lemma StepMovesOn(s: State, b: Bounds, c: string, step: Step)
    requires IsOpen(s, b, c)
    ensures var t := Next(s, b, step);
            && c in t.configs && Left(t, c) <= Left(s, c)
            && (IsOver(t, c) || IsOpen(t, b, c))
            && (Left(t, c) == Left(s, c) ==> Awaited(t, c) == Awaited(s, c))
  {
    NextKeepsInv(s, b, step);
    PhaseMovesForward(s, b, step, c);
    StepKeepsPlace(s, b, c, step);
    hide Inv, Next, SelectionLeft, HandlingLeft, IsPending, IsTerminal;
    SumKeeps(5 - Rank(s.configs[c].phase), SelectionLeft(s, c), HandlingLeft(s, c),
             5 - Rank(Next(s, b, step).configs[c].phase), SelectionLeft(Next(s, b, step), c),
             HandlingLeft(Next(s, b, step), c));
  }

  lemma SumKeeps(x: int, y: int, z: int, x': int, y': int, z': int)
    requires x' <= x && y' <= y && z' <= z
    ensures x' + y' + z' <= x + y + z
    ensures x' + y' + z' == x + y + z ==> y' == y && z' == z
  {
  }

  // ---------------------------------------------------------------- the awaited actor gets on

  lemma SelectorGetsOn(s: State, b: Bounds, c: string, choice: string)
    requires IsOpen(s, b, c) && Awaited(s, c) == Selector
    requires RanksWell(s, SelectingName(c), choice)
    ensures SelectionLeft(Next(s, b, Select(SelectingName(c), choice)), c) < SelectionLeft(s, c)
  {
    InvAt(s, b, c);
    InvParts(s, b);
    SelectingOwner(s, c);
    if s.selectings[SelectingName(c)].phase == SelectNew {
      SelectionStarts(s, b, SelectingName(c), choice);
      hide Inv, NamesOk, OpenOk, Next, RanksWell, SelectingName, HandlingName;
    } else {
      RunningSelection(s, c);
      hide Inv, NamesOk, OpenOk, RanksWell, SelectingName, HandlingName;
      SelectionActs(s, b, c, choice);
    }
  }

  /** A running selection has no handling yet, and asks for one node more or for fewer. */
  lemma RunningSelection(s: State, c: string)
    requires c in s.configs && !IsTerminal(s.configs[c].phase) && OpenOk(s, c, Workers(s), Legacy(s))
    requires SelectionIs(s, c, SelectRunning)
    ensures !HasHandling(s, c)
    ensures s.selectings[SelectingName(c)].scaling == 1 || s.selectings[SelectingName(c)].scaling < 0
  {
    hide SelectingName, HandlingName, ActiveWorkers, LegacyNodes;
  }

  lemma SelectionActs(s: State, b: Bounds, c: string, choice: string)
    requires SelectionIs(s, c, SelectRunning) && s.selectings[SelectingName(c)].config == c && !HasHandling(s, c)
    requires s.selectings[SelectingName(c)].scaling == 1 || s.selectings[SelectingName(c)].scaling < 0
    requires RanksWell(s, SelectingName(c), choice)
    ensures SelectionLeft(Next(s, b, Select(SelectingName(c), choice)), c) == 0
  {
    hide SelectingName, HandlingName, HasNodeToWake, IsEligible;
  }

  lemma HandlerGetsOn(s: State, b: Bounds, c: string, outcome: Outcome)
    requires IsOpen(s, b, c) && IsPending(HandlingLeft(s, c))
    ensures HandlingLeft(Next(s, b, Handle(HandlingName(c), outcome)), c) < HandlingLeft(s, c)
  {
    InvParts(s, b);
    var step := Handle(HandlingName(c), outcome);
    if s.handlings[HandlingName(c)].phase == HandleNew {
      HandlingStarts(s, b, HandlingName(c), outcome);
      hide Inv, NamesOk, Next, HandlingName;
    } else {
      HandleIsStep(s, b, step);
      HandleKeepsChildren(s, c, outcome);
      hide Inv, NamesOk, Next, HandlingName, ReconcileHandling;
    }
  }

  lemma StableGetsOn(s: State, b: Bounds, c: string)
    requires InStage(s, b, c, Stable) && !HasSelecting(s, c)
    ensures var t := HandleStable(s, c);
            c in t.configs && (t.configs[c].phase != Stable || HasSelecting(t, c))
  {
    InvParts(s, b);
    SelectingsOfIs(s, c);
    hide Inv, NamesOk, SelectingName, CountedNodes, SelectingsOf;
  }

  /** A scale-up that waits for nobody and is not stuck has met its request. */
  lemma ScaledUpGetsOn(s: State, b: Bounds, c: string)
    requires ScalesUp(s, b, c) && !Stuck(s, b, c, true) && Awaited(s, c) == Configurer
    ensures c in HandleStable(s, c).configs && HandleStable(s, c).configs[c].phase == Completed
  {
    ScalesUpFacts(s, b, c);
    StableIs(s, c);
    hide ScalesUp, NamesOk, HandleStable, Workers, Legacy, CountedNodes, SelectingName, HandlingName, CouldWake;
  }

  lemma ConfigureIs(s: State, b: Bounds, c: string)
    requires c in s.configs
    ensures Next(s, b, Configure(c))
         == match s.configs[c].phase
            case New => HandleInitial(s, c)
            case Stable => HandleStable(s, c)
            case Selecting => HandleSelecting(s, c)
            case Switching => HandleSwitching(s, c)
            case Completed => HandleCompletedPhase(s, c)
            case _ => s
  {
    hide HandleInitial, HandleStable, HandleSelecting, HandleSwitching, HandleCompletedPhase;
  }

  /** What Selecting and Switching wait for is there. */
  lemma WaitsForChild(s: State, c: string, w: int, d: int)
    requires c in s.configs && OpenOk(s, c, w, d)
    ensures s.configs[c].phase == Selecting ==> HasSelecting(s, c)
    ensures s.configs[c].phase == Switching ==> HasHandling(s, c)
  {
    hide SelectingName, HandlingName;
  }

  /** A configuration whose reconciler is awaited has children that have acted. */
  lemma ChildrenHaveActed(s: State, c: string)
    requires Awaited(s, c) == Configurer
    ensures HasSelecting(s, c) ==> SelectionIs(s, c, SelectCompleted) || SelectionIs(s, c, SelectFailed)
    ensures HasHandling(s, c) ==> HasActed(s.handlings[HandlingName(c)])
  {
    hide SelectingName, HandlingName;
  }

  lemma SelectedGetsOn(s: State, b: Bounds, c: string)
    requires InStage(s, b, c, Selecting) && Awaited(s, c) == Configurer
    ensures var t := HandleSelecting(s, c);
            c in t.configs && Rank(Selecting) < Rank(t.configs[c].phase)
  {
    ChildrenHaveActed(s, c);
    InvAt(s, b, c);
    InvParts(s, b);
    hide Inv, NamesOk, OpenOk, SelectingName, HandleSelecting, Workers, Legacy, Awaited;
    WaitsForChild(s, c, Workers(s), Legacy(s));
    SelectingIs(s, c);
  }

  lemma HandledGetsOn(s: State, b: Bounds, c: string)
    requires InStage(s, b, c, Switching) && Awaited(s, c) == Configurer
    ensures var t := HandleSwitching(s, c);
            c in t.configs && Rank(Switching) < Rank(t.configs[c].phase)
  {
    hide Awaited, Inv, NamesOk, OpenOk, HasHandling, HasActed, HandlingName, HandleSwitching, Workers, Legacy;
    ChildrenHaveActed(s, c);
    InvAt(s, b, c);
    InvParts(s, b);
    WaitsForChild(s, c, Workers(s), Legacy(s));
    ActedSwitches(s, c);
  }

  lemma ActedSwitches(s: State, c: string)
    requires NamesOk(s) && c in s.configs && HasHandling(s, c) && HasActed(s.handlings[HandlingName(c)])
    ensures c in HandleSwitching(s, c).configs
    ensures IsTerminal(HandleSwitching(s, c).configs[c].phase) || HandleSwitching(s, c).configs[c].phase == Completed
  {
    SwitchingIs(s, c);
    hide NamesOk, HandlingName, HandleSwitching;
  }

  lemma EndsGetOn(s: State, c: string)
    requires c in s.configs
    ensures s.configs[c].phase == New ==> Rank(New) < Rank(HandleInitial(s, c).configs[c].phase)
    ensures s.configs[c].phase == Completed ==> Rank(Completed) < Rank(HandleCompletedPhase(s, c).configs[c].phase)
  {
    hide CountedNodes;
  }

  lemma ConfigurerGetsOn(s: State, b: Bounds, c: string)
    requires IsOpen(s, b, c) && Awaited(s, c) == Configurer && !Stuck(s, b, c, true)
    ensures var t := Next(s, b, Configure(c));
            && c in t.configs
            && (Rank(s.configs[c].phase) < Rank(t.configs[c].phase) || SelectionLeft(t, c) < SelectionLeft(s, c))
  {
    ConfigureIs(s, b, c);
    EndsGetOn(s, c);
    PhaseMovesForward(s, b, Configure(c), c);
    hide Inv, Next, HandleInitial, HandleStable, HandleSelecting, HandleSwitching, HandleCompletedPhase, Awaited, Stuck,
         HasSelecting, SelectionLeft;
    match s.configs[c].phase {
      case Stable => if HasSelecting(s, c) { ScaledUpGetsOn(s, b, c); } else { StableMoves(s, b, c); }
      case Selecting => SelectedGetsOn(s, b, c);
      case Switching => HandledGetsOn(s, b, c);
      case _ =>
    }
  }

  lemma StableMoves(s: State, b: Bounds, c: string)
    requires InStage(s, b, c, Stable) && !HasSelecting(s, c)
    ensures var t := HandleStable(s, c);
            c in t.configs && (Rank(Stable) < Rank(t.configs[c].phase) || SelectionLeft(t, c) < SelectionLeft(s, c))
  {
    StableGetsOn(s, b, c);
    PhaseMovesForward(s, b, Configure(c), c);
    ConfigureIs(s, b, c);
    hide Inv, Next, HandleStable, SelectingName;
  }

  /** Its turn taken, c is farther. */
  lemma AwaitedGetsOn(s: State, b: Bounds, c: string, step: Step)
    requires IsOpen(s, b, c) && !Stuck(s, b, c, true) && Acts(s, c, step, Awaited(s, c))
    ensures c in Next(s, b, step).configs && Left(Next(s, b, step), c) < Left(s, c)
  {
    StepMovesOn(s, b, c, step);
    PhaseMovesForward(s, b, step, c);
    StepKeepsPlace(s, b, c, step);
    hide Inv, Next, Stuck, SelectionLeft, HandlingLeft, RanksWell;
    match Awaited(s, c) {
      case Configurer => ConfigurerGetsOn(s, b, c);
      case Selector => SelectorGetsOn(s, b, c, step.choice);
      case Handler => HandlerGetsOn(s, b, c, step.outcome);
    }
  }

  // ---------------------------------------------------------------- fair runs

  /** Up to step m, c gets farther, or is still where it was and waits for the same actor. */
  lemma {:induction false} Waits(s: State, b: Bounds, c: string, schedule: Schedule, n: nat, m: nat) returns (k: nat)
    requires n <= m && IsOpen(At(s, b, schedule, n), b, c)
    ensures n <= k && (IsOver(At(s, b, schedule, k), c) || IsOpen(At(s, b, schedule, k), b, c))
    ensures IsOpen(At(s, b, schedule, k), b, c) ==>
              || Left(At(s, b, schedule, k), c) < Left(At(s, b, schedule, n), c)
              || (k == m && Left(At(s, b, schedule, k), c) == Left(At(s, b, schedule, n), c)
                  && Awaited(At(s, b, schedule, k), c) == Awaited(At(s, b, schedule, n), c))
    decreases m - n
  {
    hide Inv, Left, Next, Awaited;
    if n == m {
      k := n;
    } else {
      k := Waits(s, b, c, schedule, n, m - 1);
      if k == m - 1 && IsOpen(At(s, b, schedule, k), b, c) {
        StepMovesOn(At(s, b, schedule, k), b, c, schedule(k));
        k := m;
      }
    }
  }

  lemma NextTurn(s: State, b: Bounds, c: string, schedule: Schedule, a: Actor, n: nat) returns (m: nat)
    requires IsFair(s, b, c, schedule)
    ensures m >= n && Acts(At(s, b, schedule, m), c, schedule(m), a)
  {
    assert ActsAfter(s, b, c, schedule, a, n);
    hide IsFair, Acts;
    m :| m >= n && Acts(At(s, b, schedule, m), c, schedule(m), a);
  }

  /** One call of the awaited actor. */
  lemma Turn(s: State, b: Bounds, c: string, step: Step)
    requires IsOpen(s, b, c) && !Stuck(s, b, c, true) && Acts(s, c, step, Awaited(s, c))
    ensures var t := Next(s, b, step);
            IsOver(t, c) || (IsOpen(t, b, c) && Left(t, c) < Left(s, c))
  {
    AwaitedGetsOn(s, b, c, step);
    StepMovesOn(s, b, c, step);
    hide Inv, Next, Left, Awaited, Acts, Stuck;
  }

  /** In every fair run an open configuration ends or gets stuck. */
  lemma {:induction false} FairRunEndsOrSticks(s: State, b: Bounds, c: string, schedule: Schedule, n: nat)
    returns (k: nat)
    requires IsFair(s, b, c, schedule) && IsOpen(At(s, b, schedule, n), b, c)
    ensures IsOver(At(s, b, schedule, k), c) || Stuck(At(s, b, schedule, k), b, c, true)
    decreases Left(At(s, b, schedule, n), c)
  {
    hide Inv, IsFair, Left, Awaited, Acts, Next, Stuck, IsOver;
    var now := At(s, b, schedule, n);
    var m := NextTurn(s, b, c, schedule, Awaited(now, c), n);
    k := Waits(s, b, c, schedule, n, m);
    var later := At(s, b, schedule, k);
    if !IsOver(later, c) && !Stuck(later, b, c, true) {
      if Left(later, c) < Left(now, c) {
        k := FairRunEndsOrSticks(s, b, c, schedule, k);
      } else {
        Turn(later, b, c, schedule(k));
        k := k + 1;
        assert At(s, b, schedule, k) == Next(later, b, schedule(k - 1));
        if !IsOver(At(s, b, schedule, k), c) { k := FairRunEndsOrSticks(s, b, c, schedule, k); }
      }
    }
  }

  // ---------------------------------------------------------------- exactly when they end

  /** Handlings succeed, and nobody touches the annotations. */
  ghost predicate GoesWell(step: Step) {
    !step.Annotate? && (step.Handle? ==> step.outcome.Success?)
  }

  ghost predicate AllGoesWell(schedule: Schedule) {
    forall n :: GoesWell(schedule(n))
  }

  /** A mark changes nothing about being doomed. */
  lemma MarkKeepsDoom(s: State, c: string, node: string, value: bool)
    requires c in s.configs && node in s.machines
    ensures IsDoomed(WithMachine(s, node, s.machines[node].(unschedulable := value)), c, false)
         == IsDoomed(s, c, false)
  {
    var m := s.machines[node].(unschedulable := value);
    var t := WithMachine(s, node, m);
    SameReadiness(s.machines, node, m);
    assert forall n :: n in s.machines ==> IsScaleUpCandidate(t.machines[n]) == IsScaleUpCandidate(s.machines[n])
                                           && IsRankedUp(t.machines[n]) == IsRankedUp(s.machines[n]);
    assert CouldWake(t, false) == CouldWake(s, false);
    hide SelectingName, HandlingName, ActiveWorkers, LegacyNodes, CouldWake;
  }

  /** Reconciling c dooms it only when it was doomed before. */
  lemma ConfigureKeepsHope(s: State, b: Bounds, c: string)
    requires IsOpen(s, b, c) && !IsDoomed(s, c, false)
    ensures var t := Next(s, b, Configure(c)); c in t.configs && !IsDoomed(t, c, false)
  {
    InvAt(s, b, c);
    InvParts(s, b);
    ConfigureIs(s, b, c);
    PhaseMovesForward(s, b, Configure(c), c);
    var p := s.configs[c].phase;
    if p == New {
      hide Inv, NamesOk, Next, SelectingName, HandlingName, CountedNodes, ActiveWorkers, LegacyNodes, CouldWake,
           CanFinish, HandleStable, HandleSelecting, HandleSwitching, HandleCompletedPhase;
    } else if p == Stable {
      hide Inv, OpenOk, NamesOk, Next, IsDoomed, HandleStable;
      StableKeepsHope(s, b, c);
    } else {
      hide Inv, NamesOk, Next, OpenOk, CanFinish, CouldWake, ActiveWorkers, LegacyNodes, HandleInitial, HandleStable,
           HandleSelecting, HandleSwitching, HandleCompletedPhase;
    }
  }

  /** A Stable configuration leaves Stable, waits on, or gets its selection. */
  lemma StableOutcome(s: State, c: string)
    requires NamesOk(s) && c in s.configs && s.configs[c].phase == Stable
    ensures var t := HandleStable(s, c);
            && c in t.configs && t.machines == s.machines && t.handlings == s.handlings
            && (t.configs[c].phase == Stable ==>
                  t == s || (!HasSelecting(s, c) && SelectionIs(t, c, SelectNew) && t.configs == s.configs))
            && t.configs[c].phase != New
  {
    SelectingsOfIs(s, c);
    hide NamesOk, SelectingName, CountedNodes, SelectingsOf;
  }

  lemma StableKeepsHope(s: State, b: Bounds, c: string)
    requires InStage(s, b, c, Stable) && !IsDoomed(s, c, false) && NamesOk(s)
    ensures var t := HandleStable(s, c); c in t.configs && !IsDoomed(t, c, false)
  {
    StableOutcome(s, c);
    hide Inv, NamesOk, HandleStable, SelectingName, HandlingName, HasSelecting, IsDoomed;
    var t := HandleStable(s, c);
    if t.configs[c].phase != Stable {
      LeavingStable(t, c);
    } else if t != s {
      SameMachines(s, t);
      NewSelectionKeepsHope(s, t, c);
    }
  }

  lemma LeavingStable(t: State, c: string)
    requires c in t.configs && t.configs[c].phase != New && t.configs[c].phase != Stable
    ensures !IsDoomed(t, c, false)
  {
    hide CanFinish, CouldWake, Legacy, Workers;
  }

  lemma NewSelectionKeepsHope(s: State, t: State, c: string)
    requires c in s.configs && s.configs[c].phase == Stable && !HasSelecting(s, c) && !IsDoomed(s, c, false)
    requires t.configs == s.configs && t.machines == s.machines && SelectionIs(t, c, SelectNew)
    requires CouldWake(t, false) == CouldWake(s, false)
    ensures !IsDoomed(t, c, false)
  {
    hide SelectingName, HandlingName, CouldWake, ActiveWorkers, LegacyNodes;
    assert SelectionPending(t, c);
  }

  lemma SameMachines(s: State, t: State)
    requires t.machines == s.machines
    ensures CouldWake(t, false) == CouldWake(s, false)
  {
  }

  lemma SelectKeepsHope(s: State, b: Bounds, c: string, choice: string)
    requires IsOpen(s, b, c) && !IsDoomed(s, c, false) && HasSelecting(s, c)
    ensures var t := Next(s, b, Select(SelectingName(c), choice)); c in t.configs && !IsDoomed(t, c, false)
  {
    hide Inv;
    if ScalesUp(s, b, c) {
      ScaleUpSelectKeepsHope(s, b, c, choice);
    } else {
      hide SelectingName, HandlingName, CanFinish, CouldWake, ActiveWorkers, LegacyNodes, IsEligible, HasNodeToWake;
    }
  }

  lemma ScaleUpSelectKeepsHope(s: State, b: Bounds, c: string, choice: string)
    requires ScalesUp(s, b, c) && !IsDoomed(s, c, false)
    ensures var t := Next(s, b, Select(SelectingName(c), choice)); c in t.configs && !IsDoomed(t, c, false)
  {
    ScalesUpFacts(s, b, c);
    assert CouldWake(s, false) == HasNodeToWake(s);
    hide Inv, NamesOk, SelectingName, HandlingName, CouldWake, HasNodeToWake, IsEligible, CountedNodes, ActiveWorkers,
         LegacyNodes;
  }

  lemma HandleKeepsHope(s: State, b: Bounds, c: string)
    requires IsOpen(s, b, c) && !IsDoomed(s, c, false) && HasHandling(s, c)
    ensures var t := Next(s, b, Handle(HandlingName(c), Success)); c in t.configs && !IsDoomed(t, c, false)
  {
    InvParts(s, b);
    var step := Handle(HandlingName(c), Success);
    HandleIsStep(s, b, step);
    HandleKeepsChildren(s, c, Success);
    if s.configs[c].phase == Stable {
      HandlingOwner(s, c);
      hide Inv, NamesOk, Next, ReconcileHandling, IsDoomed, HandlingName;
      ScaleUpHandleKeepsHope(s, b, c);
    } else {
      hide Inv, NamesOk, Next, ReconcileHandling, HandlingName, CanFinish, CouldWake, ActiveWorkers, LegacyNodes;
    }
  }

  lemma ScaleUpHandleKeepsHope(s: State, b: Bounds, c: string)
    requires ScalesUp(s, b, c) && !IsDoomed(s, c, false) && HasHandling(s, c)
    ensures var t := ReconcileHandling(s, HandlingName(c), Success); c in t.configs && !IsDoomed(t, c, false)
  {
    ScalesUpFacts(s, b, c);
    var p := s.handlings[HandlingName(c)].phase;
    var step := Handle(HandlingName(c), Success);
    HandleIsStep(s, b, step);
    HandleKeepsChildren(s, c, Success);
    if p == HandleRunning {
      HandlingMeets(s, b, c);
      hide Inv, NamesOk, Next, ReconcileHandling, HandlingName, SelectingName, Workers, Legacy, CouldWake, CountedNodes;
    } else if p == HandleNew {
      HandlingStarts(s, b, HandlingName(c), Success);
      hide Inv, NamesOk, Next, ReconcileHandling, HandlingName, SelectingName, ActiveWorkers, LegacyNodes, CouldWake,
           CountedNodes;
    } else {
      hide Inv, NamesOk, Next, IsDoomed, HandlingName;
    }
  }

  /** While all goes well nothing dooms c. */
  lemma StepKeepsHope(s: State, b: Bounds, c: string, step: Step)
    requires IsOpen(s, b, c) && !IsDoomed(s, c, false) && GoesWell(step)
    ensures var t := Next(s, b, step); c in t.configs && !IsDoomed(t, c, false)
  {
    OnlyOpen(s, b, c);
    OthersDoNothing(s, b, c, step);
    NoChildren(s, b, c, step);
    hide Inv, OthersOver, IsDoomed, ReconcileConfig, ReconcileSelecting, ReconcileHandling, SelectingName,
         HandlingName, HasSelecting, HasHandling;
    match step {
      case Configure(name) => if name == c { ConfigureKeepsHope(s, b, c); }
      case Select(name, choice) =>
        if name == SelectingName(c) && HasSelecting(s, c) { SelectKeepsHope(s, b, c, choice); }
      case Handle(name, outcome) =>
        if name == HandlingName(c) && HasHandling(s, c) { HandleKeepsHope(s, b, c); }
      case Cordon(node, value) => if node in s.machines { MarkKeepsDoom(s, c, node, value); }
      case _ =>
    }
  }

  ghost predicate HasHope(s: State, b: Bounds, c: string) {
    IsOver(s, c) || (IsOpen(s, b, c) && !IsDoomed(s, c, false))
  }

  lemma StepKeepsGoing(s: State, b: Bounds, c: string, step: Step)
    requires HasHope(s, b, c) && GoesWell(step)
    ensures HasHope(Next(s, b, step), b, c)
  {
    hide Inv, Next, IsDoomed, GoesWell;
    if IsOver(s, c) {
      PhaseMovesForward(s, b, step, c);
    } else {
      StepKeepsHope(s, b, c, step);
      StepMovesOn(s, b, c, step);
      hide Left, Awaited;
    }
  }

  lemma {:induction false} KeepsHope(s: State, b: Bounds, c: string, schedule: Schedule, n: nat)
    requires HasHope(s, b, c) && AllGoesWell(schedule)
    ensures HasHope(At(s, b, schedule, n), b, c)
  {
    if n > 0 {
      KeepsHope(s, b, c, schedule, n - 1);
      assert GoesWell(schedule(n - 1));
      hide HasHope, Next, GoesWell, AllGoesWell;
      StepKeepsGoing(At(s, b, schedule, n - 1), b, c, schedule(n - 1));
    }
  }

  lemma WellIsAllowed(schedule: Schedule, n: nat)
    requires AllGoesWell(schedule)
    ensures IsAllowed(schedule(n), false)
  {
    assert GoesWell(schedule(n));
  }

  lemma {:induction false} StaysDoomed(s: State, b: Bounds, c: string, schedule: Schedule, n: nat)
    requires IsOpen(s, b, c) && IsDoomed(s, c, false) && AllGoesWell(schedule)
    ensures IsOpen(At(s, b, schedule, n), b, c) && IsDoomed(At(s, b, schedule, n), c, false)
  {
    hide Inv, IsDoomed, Next, AllGoesWell, IsAllowed;
    if n > 0 {
      StaysDoomed(s, b, c, schedule, n - 1);
      WellIsAllowed(schedule, n - 1);
      DoomedStep(At(s, b, schedule, n - 1), b, c, false, schedule(n - 1));
    }
  }

  lemma StuckIsDoomed(s: State, b: Bounds, c: string)
    requires Stuck(s, b, c, true)
    ensures c in s.configs && IsDoomed(s, c, false) && !IsOver(s, c)
  {
    ScalesUpFacts(s, b, c);
    hide Inv, NamesOk, SelectingName, HandlingName, Workers, Legacy, CountedNodes;
  }

  ghost predicate EndsSomewhere(s: State, b: Bounds, c: string, schedule: Schedule) {
    exists k :: IsOver(At(s, b, schedule, k), c)
  }

  /** In every fair run in which handlings succeed and annotations stay, an open configuration does end
      exactly when it is not a request for one more worker with none left to switch on. */
  lemma {:induction false} FairRunEndsIff(s: State, b: Bounds, c: string, schedule: Schedule)
    requires IsOpen(s, b, c) && IsFair(s, b, c, schedule) && AllGoesWell(schedule)
    ensures EndsSomewhere(s, b, c, schedule) <==> !IsDoomed(s, c, false)
  {
    hide Inv, IsFair, AllGoesWell, IsDoomed, Next, Stuck;
    if IsDoomed(s, c, false) {
      forall k: nat ensures !IsOver(At(s, b, schedule, k), c) { StaysDoomed(s, b, c, schedule, k); }
    } else {
      assert At(s, b, schedule, 0) == s;
      var k := FairRunEndsOrSticks(s, b, c, schedule, 0);
      KeepsHope(s, b, c, schedule, k);
      if Stuck(At(s, b, schedule, k), b, c, true) { StuckIsDoomed(At(s, b, schedule, k), b, c); }
    }
  }

  // ---------------------------------------------------------------- fair runs exist

  /** Some node the selection may choose, for a scale-down as for a scale-up. */
  ghost function WellChosen(s: State, name: string): string {
    if name in s.selectings && exists n :: n in s.machines && IsEligible(s, s.selectings[name].scaling, n)
    then var n :| n in s.machines && IsEligible(s, s.selectings[name].scaling, n); n
    else ""
  }

  /** The reconcilers of c take turns. */
  ghost function TurnOf(s: State, c: string, n: nat): Step {
    if n % 3 == 0 then Configure(c)
    else if n % 3 == 1 then Select(SelectingName(c), WellChosen(s, SelectingName(c)))
    else Handle(HandlingName(c), Success)
  }

  ghost function InTurns(s: State, b: Bounds, c: string, n: nat): State {
    if n == 0 then s
    else
      var t := InTurns(s, b, c, n - 1);
      Next(t, b, TurnOf(t, c, n - 1))
  }

  ghost predicate FollowsTurns(s: State, b: Bounds, c: string, schedule: Schedule) {
    forall n :: schedule(n) == TurnOf(InTurns(s, b, c, n), c, n)
  }

  lemma TurnAt(s: State, b: Bounds, c: string, schedule: Schedule, n: nat)
    requires FollowsTurns(s, b, c, schedule)
    ensures schedule(n) == TurnOf(InTurns(s, b, c, n), c, n)
    ensures InTurns(s, b, c, n + 1) == Next(InTurns(s, b, c, n), b, schedule(n))
  {
    hide Next, TurnOf;
  }

  lemma {:induction false} AtIsInTurns(s: State, b: Bounds, c: string, schedule: Schedule, n: nat)
    requires FollowsTurns(s, b, c, schedule)
    ensures At(s, b, schedule, n) == InTurns(s, b, c, n)
  {
    hide FollowsTurns, Next, TurnOf;
    if n > 0 {
      AtIsInTurns(s, b, c, schedule, n - 1);
      TurnAt(s, b, c, schedule, n - 1);
      hide InTurns;
    }
  }

  function Place(a: Actor): nat {
    match a
    case Configurer => 0
    case Selector => 1
    case Handler => 2
  }

  lemma PlaceIs(a: Actor, n: nat)
    ensures 3 * n + Place(a) >= n && (3 * n + Place(a)) % 3 == Place(a)
  {
  }

  lemma TurnActs(s: State, c: string, a: Actor, n: nat)
    ensures Acts(s, c, TurnOf(s, c, 3 * n + Place(a)), a)
  {
    PlaceIs(a, n);
    hide SelectingName, HandlingName, RanksWell, WellChosen;
    WellChosenRanksWell(s, SelectingName(c));
  }

  lemma WellChosenRanksWell(s: State, name: string)
    ensures RanksWell(s, name, WellChosen(s, name))
  {
    if name in s.selectings && s.selectings[name].scaling > 0 && HasNodeToWake(s) {
      var n :| n in s.machines && CanWake(s.machines[n]);
      assert IsEligible(s, s.selectings[name].scaling, n);
    }
  }

  lemma TurnGoesWell(s: State, c: string, n: nat)
    ensures GoesWell(TurnOf(s, c, n))
  {
    hide SelectingName, HandlingName, WellChosen;
  }

  lemma ActsInTurn(s: State, b: Bounds, c: string, schedule: Schedule, a: Actor, n: nat)
    requires FollowsTurns(s, b, c, schedule)
    ensures ActsAfter(s, b, c, schedule, a, n)
  {
    hide FollowsTurns, Next, Acts, TurnOf, InTurns, At, Place;
    var m := 3 * n + Place(a);
    PlaceIs(a, n);
    AtIsInTurns(s, b, c, schedule, m);
    TurnAt(s, b, c, schedule, m);
    TurnActs(InTurns(s, b, c, m), c, a, n);
    assert m >= n && Acts(At(s, b, schedule, m), c, schedule(m), a);
  }

  /** From every state some fair run goes well. */
  lemma {:induction false} FairRunsExist(s: State, b: Bounds, c: string) returns (schedule: Schedule)
    ensures IsFair(s, b, c, schedule) && AllGoesWell(schedule)
  {
    hide TurnOf, InTurns, ActsAfter, GoesWell;
    schedule := (n: nat) => TurnOf(InTurns(s, b, c, n), c, n);
    assert FollowsTurns(s, b, c, schedule);
    forall a: Actor, n: nat ensures ActsAfter(s, b, c, schedule, a, n) { ActsInTurn(s, b, c, schedule, a, n); }
    forall n: nat ensures GoesWell(schedule(n)) { TurnGoesWell(InTurns(s, b, c, n), c, n); }
  }
}
