/** What every step of the protocol keeps, and what therefore holds in every run. */
module ProtocolSafety {
  import opened Protocol

  // ---------------------------------------------------------------- counting

  function LegacyNodes(machines: map<string, Machine>): set<string> {
    set n | n in machines && machines[n].role == LegacyMaster && machines[n].ready
  }

  function Workers(s: State): nat {
    |ActiveWorkers(s.machines)|
  }

  /** Ready nodes that carry the old master label only: the controllers count them, the forecaster
      does not. */
  function Legacy(s: State): nat {
    |LegacyNodes(s.machines)|
  }

  lemma CountsDifferByLegacy(machines: map<string, Machine>)
    ensures |CountedNodes(machines)| == |ActiveWorkers(machines)| + |LegacyNodes(machines)|
  {
    assert CountedNodes(machines) == ActiveWorkers(machines) + LegacyNodes(machines);
    assert ActiveWorkers(machines) !! LegacyNodes(machines);
  }

  /** Switching one worker changes the worker count by one and nothing else. */
  lemma SwitchCount(machines: map<string, Machine>, n: string, m: Machine)
    requires n in machines && machines[n].role == m.role == Worker
    ensures |ActiveWorkers(machines[n := m])|
         == |ActiveWorkers(machines)| + (if m.ready then 1 else 0) - (if machines[n].ready then 1 else 0)
    ensures LegacyNodes(machines[n := m]) == LegacyNodes(machines)
  {
    var before, after := ActiveWorkers(machines), ActiveWorkers(machines[n := m]);
    if m.ready == machines[n].ready {
      assert after == before;
    } else if m.ready {
      assert after == before + {n};
    } else {
      assert after == before - {n};
    }
    assert LegacyNodes(machines[n := m]) == LegacyNodes(machines);
  }

  lemma SameReadiness(machines: map<string, Machine>, n: string, m: Machine)
    requires n in machines && machines[n].role == m.role && machines[n].ready == m.ready
    ensures ActiveWorkers(machines[n := m]) == ActiveWorkers(machines)
    ensures LegacyNodes(machines[n := m]) == LegacyNodes(machines)
  {
  }

  // ---------------------------------------------------------------- the invariant

  lemma SelectingNameInjective(a: string, b: string)
    requires SelectingName(a) == SelectingName(b)
    ensures a == b
  {
    var p := "node-selecting-";
    assert a == (p + a)[|p|..] && b == (p + b)[|p|..];
  }

  lemma HandlingNameInjective(a: string, b: string)
    requires HandlingName(a) == HandlingName(b)
    ensures a == b
  {
    var p := "node-handling-";
    assert a == (p + a)[|p|..] && b == (p + b)[|p|..];
  }

  /** Child objects are named after their configuration, which exists. */
  ghost predicate NamesOk(s: State) {
    && (forall k :: k in s.selectings ==>
          k == SelectingName(s.selectings[k].config) && s.selectings[k].config in s.configs)
    && (forall k :: k in s.handlings ==>
          k == HandlingName(s.handlings[k].config) && SelectingName(s.handlings[k].config) in s.selectings)
  }

  ghost predicate HasSelecting(s: State, c: string) {
    SelectingName(c) in s.selectings
  }

  ghost predicate HasHandling(s: State, c: string) {
    HandlingName(c) in s.handlings
  }

  /** Nothing that belongs to c is still to act. */
  ghost predicate Settled(s: State, c: string) {
    && (HasSelecting(s, c) ==>
          var p := s.selectings[SelectingName(c)].phase; p == SelectCompleted || p == SelectFailed)
    && (HasHandling(s, c) ==> HasActed(s.handlings[HandlingName(c)]))
  }

  /** The worker count w before the switch: one short of the request r when up, else one above it;
      with two or more legacy nodes (d) the second half is not promised. */
  ghost predicate Before(up: bool, w: int, r: int, d: int) {
    if up then w == r - 1 else w == r + 1 || d >= 2
  }

  /** The worker count after the switch is the request. */
  ghost predicate Met(w: int, r: int, d: int) {
    w == r || d >= 2
  }

  /** How far the selection and the handling of c have got. */
  ghost predicate Progress(s: State, c: string, up: bool, w: int, r: int, d: int)
    requires HasSelecting(s, c)
  {
    var ns := s.selectings[SelectingName(c)];
    if ns.phase != SelectCompleted then !HasHandling(s, c) && Before(up, w, r, d)
    else
      && HasHandling(s, c)
      && var nh := s.handlings[HandlingName(c)];
         && nh.scaling == ns.scaling && nh.selected == ns.selected
         && match nh.phase
            case HandleCompleted => Met(w, r, d)
            case HandleFailed => Before(up, w, r, d) || Met(w, r, d)
            case _ =>
              && Before(up, w, r, d) && nh.selected in s.machines && (up || w >= 2)
              && s.machines[nh.selected].role == Worker && s.machines[nh.selected].ready == !up
  }

  ghost predicate IsAdjacent(w: int, r: int) {
    w == r - 1 || w == r + 1
  }

  /** The situation of an open configuration, phase by phase, with w ready workers and d legacy nodes. */
  ghost predicate OpenOk(s: State, c: string, w: int, d: int)
    requires c in s.configs
  {
    var r := s.configs[c].required;
    match s.configs[c].phase
    case New => !HasSelecting(s, c) && !HasHandling(s, c) && IsAdjacent(w, r)
    case Stable =>
      if HasSelecting(s, c) then d == 0 && s.selectings[SelectingName(c)].scaling == 1 && Progress(s, c, true, w, r, d)
      else !HasHandling(s, c) && IsAdjacent(w, r)
    case Selecting =>
      HasSelecting(s, c) && s.selectings[SelectingName(c)].scaling < 0 && Progress(s, c, false, w, r, d)
    case Switching =>
      && HasSelecting(s, c) && s.selectings[SelectingName(c)].phase == SelectCompleted
      && s.selectings[SelectingName(c)].scaling < 0 && Progress(s, c, false, w, r, d)
    case Completed => Settled(s, c) && (d == 0 ==> w == r)
    case _ => Settled(s, c)
  }

  ghost predicate ConfigsOk(s: State, b: Bounds, w: int, d: int) {
    forall c :: c in s.configs ==>
      && OpenOk(s, c, w, d)
      && (!IsTerminal(s.configs[c].phase) ==>
            && s.configs[c].required <= b.max && (CountsAgreeEnough(b, d) ==> b.min <= s.configs[c].required)
            && s.configs[c].minNodes == b.min && s.configs[c].maxNodes == b.max)
  }

  ghost predicate AtMostOneOpen(s: State) {
    forall a, c ::
      a in s.configs && c in s.configs && !IsTerminal(s.configs[a].phase) && !IsTerminal(s.configs[c].phase) ==> a == c
  }

  /** When the two ways of counting workers cannot push the cluster out of its range. */
  predicate CountsAgreeEnough(b: Bounds, legacy: int) {
    legacy <= 1 || b.min <= 1 || b.min >= b.max
  }

  ghost predicate WorkersOk(s: State, b: Bounds, w: int, d: int) {
    && w <= b.max
    && (CountsAgreeEnough(b, d) ==> b.min <= w)
    && (b.min >= b.max ==> s.configs == map[])
  }

  ghost predicate Inv(s: State, b: Bounds) {
    && NamesOk(s)
    && AtMostOneOpen(s)
    && ConfigsOk(s, b, Workers(s), Legacy(s))
    && WorkersOk(s, b, Workers(s), Legacy(s))
  }

  /** No scaling objects yet and a worker count within bounds. */
  ghost predicate Init(s: State, b: Bounds) {
    && s.configs == map[] && s.selectings == map[] && s.handlings == map[]
    && b.min <= Workers(s) <= b.max
  }

  lemma SelectingOwner(s: State, c: string)
    requires NamesOk(s) && HasSelecting(s, c)
    ensures s.selectings[SelectingName(c)].config == c && c in s.configs
  {
    SelectingNameInjective(c, s.selectings[SelectingName(c)].config);
  }

  lemma HandlingOwner(s: State, c: string)
    requires NamesOk(s) && HasHandling(s, c)
    ensures s.handlings[HandlingName(c)].config == c && HasSelecting(s, c) && c in s.configs
  {
    HandlingNameInjective(c, s.handlings[HandlingName(c)].config);
    SelectingOwner(s, c);
  }

  // ---------------------------------------------------------------- frames

  /** c keeps its own objects. */
  ghost predicate SameChildren(s: State, t: State, c: string) {
    && (HasSelecting(s, c) <==> HasSelecting(t, c))
    && (HasSelecting(s, c) ==> t.selectings[SelectingName(c)] == s.selectings[SelectingName(c)])
    && (HasHandling(s, c) <==> HasHandling(t, c))
    && (HasHandling(s, c) ==> t.handlings[HandlingName(c)] == s.handlings[HandlingName(c)])
  }

  /** Every configuration but c keeps its own objects. */
  ghost predicate OthersKeep(s: State, t: State, c: string) {
    forall a :: a != c ==> SameChildren(s, t, a)
  }

  lemma OtherSelecting(s: State, name: string, ns: NodeSelecting, c: string)
    requires ns.config != c && name == SelectingName(ns.config)
    ensures SameChildren(s, s.(selectings := s.selectings[name := ns]), c)
  {
    if SelectingName(c) == name { SelectingNameInjective(c, ns.config); }
  }

  lemma OtherHandling(s: State, name: string, nh: NodeHandling, c: string)
    requires nh.config != c && name == HandlingName(nh.config)
    ensures SameChildren(s, s.(handlings := s.handlings[name := nh]), c)
  {
    if HandlingName(c) == name { HandlingNameInjective(c, nh.config); }
  }

  /** A terminal configuration stays settled when its own objects stay. */
  lemma TerminalFrame(s: State, t: State, c: string, w: int, d: int, w': int, d': int)
    requires c in s.configs && c in t.configs && t.configs[c] == s.configs[c]
    requires IsTerminal(s.configs[c].phase) && OpenOk(s, c, w, d) && SameChildren(s, t, c)
    ensures OpenOk(t, c, w', d')
  {
  }

  // ---------------------------------------------------------------- the forecaster's steps

  lemma CreateKeepsInv(s: State, b: Bounds, name: string, required: int)
    requires Inv(s, b) && b.min < b.max && IsAdjacent(Workers(s), required)
    requires required <= b.max && (CountsAgreeEnough(b, Legacy(s)) ==> b.min <= required)
    ensures Inv(CreateConfig(s, name, required, b), b)
  {
    var t := CreateConfig(s, name, required, b);
    hide ActiveWorkers, LegacyNodes, SelectingName, HandlingName;
    if t != s {
      if HasSelecting(s, name) { SelectingOwner(s, name); }
      if HasHandling(s, name) { HandlingOwner(s, name); }
      var w, d := Workers(s), Legacy(s);
      forall c | c in t.configs ensures OpenOk(t, c, w, d) {
        if c != name { TerminalFrame(s, t, c, w, d, w, d); }
      }
    }
  }

  lemma InvParts(s: State, b: Bounds)
    requires Inv(s, b)
    ensures NamesOk(s) && WorkersOk(s, b, Workers(s), Legacy(s))
  {
  }

  lemma ForecastKeepsInv(s: State, b: Bounds, name: string, v: Verdict)
    requires Inv(s, b)
    ensures Inv(ForecastStep(s, b, name, v), b)
  {
    InvParts(s, b);
    hide Inv, ActiveWorkers, LegacyNodes, CreateConfig;
    var required := Workers(s) + Delta(v);
    if v != Keep && b.min <= required <= b.max { CreateKeepsInv(s, b, name, required); }
  }

  lemma ReactiveKeepsInv(s: State, b: Bounds, name: string)
    requires Inv(s, b)
    ensures Inv(ReactiveStep(s, b, name), b)
  {
    InvParts(s, b);
    hide Inv, ActiveWorkers, LegacyNodes, CreateConfig;
    var required := Workers(s) + 1;
    if required <= b.max { CreateKeepsInv(s, b, name, required); }
  }

  // ---------------------------------------------------------------- the configuration reconciler

  /** Only configuration c changes, and it was open. */
  lemma ConfigChangeKeepsInv(s: State, b: Bounds, t: State, c: string)
    requires Inv(s, b) && c in s.configs && !IsTerminal(s.configs[c].phase)
    requires c in t.configs && t == s.(configs := s.configs[c := t.configs[c]])
    requires t.configs[c].required == s.configs[c].required
    requires t.configs[c].minNodes == s.configs[c].minNodes && t.configs[c].maxNodes == s.configs[c].maxNodes
    requires OpenOk(t, c, Workers(s), Legacy(s))
    ensures Inv(t, b)
  {
    hide ActiveWorkers, LegacyNodes, SelectingName, HandlingName;
    var w, d := Workers(s), Legacy(s);
    forall a | a in t.configs ensures OpenOk(t, a, w, d) {
      if a != c { TerminalFrame(s, t, a, w, d, w, d); }
    }
  }

  lemma SelectingsOfIs(s: State, c: string)
    requires NamesOk(s)
    ensures SelectingsOf(s, c) == if HasSelecting(s, c) then {SelectingName(c)} else {}
  {
    if HasSelecting(s, c) { SelectingOwner(s, c); }
  }

  lemma HandlingsOfIs(s: State, c: string)
    requires NamesOk(s)
    ensures HandlingsOf(s, c) == if HasHandling(s, c) then {HandlingName(c)} else {}
  {
    if HasHandling(s, c) { HandlingOwner(s, c); }
  }

  /** A configuration of the current phase Stable that has no selection yet gets one. */
  lemma NewSelectingKeepsInv(s: State, b: Bounds, c: string, scaling: int, cfg: Config)
    requires Inv(s, b) && c in s.configs && s.configs[c].phase == Stable && !HasSelecting(s, c)
    requires cfg.required == s.configs[c].required && cfg.minNodes == b.min && cfg.maxNodes == b.max
    requires (cfg.phase == Stable && Legacy(s) == 0 && scaling == 1 && Workers(s) == cfg.required - 1)
          || (cfg.phase == Selecting && scaling < 0 && Before(false, Workers(s), cfg.required, Legacy(s)))
    ensures Inv(s.(configs := s.configs[c := cfg],
                   selectings := s.selectings[SelectingName(c) := NodeSelecting(c, scaling, "", SelectNew)]), b)
  {
    var ns := NodeSelecting(c, scaling, "", SelectNew);
    var t := s.(configs := s.configs[c := cfg], selectings := s.selectings[SelectingName(c) := ns]);
    InvAt(s, b, c);
    InvParts(s, b);
    NewSelectionIsOk(s, t, c, Workers(s), Legacy(s), ns);
    NamesAfterNewSelecting(s, t, c, ns);
    hide Inv, OpenOk, NamesOk, OthersKeep, ActiveWorkers, LegacyNodes, SelectingName, HandlingName;
    OpenChangeKeepsInv(s, b, t, c);
  }

  lemma NewSelectionIsOk(s: State, t: State, c: string, w: int, d: int, ns: NodeSelecting)
    requires c in s.configs && s.configs[c].phase == Stable && OpenOk(s, c, w, d) && !HasSelecting(s, c)
    requires ns.phase == SelectNew && t.handlings == s.handlings
    requires t.selectings == s.selectings[SelectingName(c) := ns]
    requires c in t.configs && t.configs[c].required == s.configs[c].required
    requires (t.configs[c].phase == Stable && d == 0 && ns.scaling == 1 && w == s.configs[c].required - 1)
          || (t.configs[c].phase == Selecting && ns.scaling < 0 && Before(false, w, s.configs[c].required, d))
    ensures OpenOk(t, c, w, d)
  {
    hide SelectingName, HandlingName;
  }

  lemma NamesAfterNewSelecting(s: State, t: State, c: string, ns: NodeSelecting)
    requires NamesOk(s) && c in s.configs && ns.config == c
    requires t.handlings == s.handlings && t.selectings == s.selectings[SelectingName(c) := ns]
    requires c in t.configs && t.configs == s.configs[c := t.configs[c]]
    ensures NamesOk(t) && OthersKeep(s, t, c)
  {
    hide SelectingName, HandlingName;
    var m := s.(selectings := t.selectings);
    forall a | a != c ensures SameChildren(s, t, a) {
      OtherSelecting(s, SelectingName(c), ns, a);
      assert SameChildren(s, m, a);
    }
  }

  /** Only c and its objects change, and c was open. */
  lemma OpenChangeKeepsInv(s: State, b: Bounds, t: State, c: string)
    requires Inv(s, b) && c in s.configs && !IsTerminal(s.configs[c].phase)
    requires c in t.configs && t.configs == s.configs[c := t.configs[c]] && t.machines == s.machines
    requires t.configs[c].required == s.configs[c].required
    requires t.configs[c].minNodes == s.configs[c].minNodes && t.configs[c].maxNodes == s.configs[c].maxNodes
    requires NamesOk(t) && OthersKeep(s, t, c) && OpenOk(t, c, Workers(s), Legacy(s))
    ensures Inv(t, b)
  {
    var w, d := Workers(s), Legacy(s);
    hide ActiveWorkers, LegacyNodes, SelectingName, HandlingName, NamesOk;
    forall a | a in t.configs ensures OpenOk(t, a, w, d) {
      if a != c { TerminalFrame(s, t, a, w, d, w, d); }
    }
    hide OpenOk, OthersKeep;
  }

  /** A Stable configuration out of bounds has no children. */
  lemma GivingUpIsOk(s: State, b: Bounds, c: string, cfg: Config)
    requires Inv(s, b) && c in s.configs && s.configs[c].phase == Stable && s.configs[c].required < b.min
    ensures OpenOk(s.(configs := s.configs[c := cfg.(phase := Failed)]), c, Workers(s), Legacy(s))
  {
    InvAt(s, b, c);
    hide Inv, ActiveWorkers, LegacyNodes, SelectingName, HandlingName;
  }

  /** A Stable configuration with a selection is never above its request. */
  lemma StableSelectionGrows(s: State, c: string, w: int, d: int)
    requires c in s.configs && s.configs[c].phase == Stable && OpenOk(s, c, w, d) && HasSelecting(s, c)
    ensures d == 0 && w <= s.configs[c].required
  {
  }

  function WithConfig(s: State, c: string, cfg: Config): State {
    s.(configs := s.configs[c := cfg])
  }

  function WithSelecting(s: State, c: string, scaling: int): State {
    s.(selectings := s.selectings[SelectingName(c) := NodeSelecting(c, scaling, "", SelectNew)])
  }

  lemma StableIs(s: State, c: string)
    requires NamesOk(s) && c in s.configs && s.configs[c].minNodes <= s.configs[c].required <= s.configs[c].maxNodes
    ensures var counted, r := |CountedNodes(s.machines)|, s.configs[c].required;
            var cfg := s.configs[c].(active := counted);
            HandleStable(s, c) == if counted == r then WithConfig(s, c, cfg.(phase := Completed))
                                  else
                                    var t := if HasSelecting(s, c) then s else WithSelecting(s, c, r - counted);
                                    if counted < r then t else WithConfig(t, c, cfg.(phase := Selecting))
  {
    SelectingsOfIs(s, c);
    hide NamesOk, SelectingsOf, CountedNodes, SelectingName;
  }

  lemma StableMeetsKeepsInv(s: State, b: Bounds, c: string)
    requires Inv(s, b) && c in s.configs && s.configs[c].phase == Stable
    requires |CountedNodes(s.machines)| == s.configs[c].required
    ensures Inv(HandleStable(s, c), b)
  {
    CountsDifferByLegacy(s.machines);
    InvAt(s, b, c);
    var cfg := s.configs[c].(active := |CountedNodes(s.machines)|);
    var t := WithConfig(s, c, cfg.(phase := Completed));
    hide Inv, OpenOk, ActiveWorkers, LegacyNodes, CountedNodes, SelectingName, HandlingName;
    CompletingIsOk(s, c, cfg, Workers(s), Legacy(s));
    assert HandleStable(s, c) == t;
    hide HandleStable, Workers, Legacy;
    ConfigChangeKeepsInv(s, b, t, c);
  }

  lemma StableFailsKeepsInv(s: State, b: Bounds, c: string)
    requires Inv(s, b) && c in s.configs && s.configs[c].phase == Stable
    requires |CountedNodes(s.machines)| != s.configs[c].required && s.configs[c].required < b.min
    ensures Inv(HandleStable(s, c), b)
  {
    InvAt(s, b, c);
    var cfg := s.configs[c].(active := |CountedNodes(s.machines)|);
    var t := WithConfig(s, c, cfg.(phase := Failed));
    hide Inv, OpenOk, ActiveWorkers, LegacyNodes, CountedNodes, SelectingName, HandlingName;
    GivingUpIsOk(s, b, c, cfg);
    assert HandleStable(s, c) == t;
    hide HandleStable, Workers, Legacy;
    ConfigChangeKeepsInv(s, b, t, c);
  }

  lemma StableScalesKeepsInv(s: State, b: Bounds, c: string)
    requires Inv(s, b) && c in s.configs && s.configs[c].phase == Stable
    requires |CountedNodes(s.machines)| != s.configs[c].required && b.min <= s.configs[c].required
    ensures Inv(HandleStable(s, c), b)
  {
    CountsDifferByLegacy(s.machines);
    InvAt(s, b, c);
    InvParts(s, b);
    var w, d, r, counted := Workers(s), Legacy(s), s.configs[c].required, |CountedNodes(s.machines)|;
    if HasSelecting(s, c) {
      StableSelectionGrows(s, c, w, d);
    } else {
      assert IsAdjacent(w, r) by { hide Inv, NamesOk, SelectingName, HandlingName; }
    }
    StableIs(s, c);
    hide Inv, OpenOk, NamesOk, HandleStable, ActiveWorkers, LegacyNodes, CountedNodes, SelectingName, HandlingName;
    if !HasSelecting(s, c) {
      var cfg := s.configs[c].(active := counted);
      NewSelectingKeepsInv(s, b, c, r - counted, if counted < r then s.configs[c] else cfg.(phase := Selecting));
      assert s.configs[c := s.configs[c]] == s.configs;
    }
  }

  lemma StableKeepsInv(s: State, b: Bounds, c: string)
    requires Inv(s, b) && c in s.configs && s.configs[c].phase == Stable
    ensures Inv(HandleStable(s, c), b)
  {
    hide Inv, HandleStable, CountedNodes;
    if |CountedNodes(s.machines)| == s.configs[c].required {
      StableMeetsKeepsInv(s, b, c);
    } else if s.configs[c].required < b.min {
      StableFailsKeepsInv(s, b, c);
    } else {
      StableScalesKeepsInv(s, b, c);
    }
  }

  lemma InvAt(s: State, b: Bounds, c: string)
    requires Inv(s, b) && c in s.configs
    ensures OpenOk(s, c, Workers(s), Legacy(s))
    ensures b.min < b.max
    ensures !IsTerminal(s.configs[c].phase) ==>
      && s.configs[c].required <= b.max && (CountsAgreeEnough(b, Legacy(s)) ==> b.min <= s.configs[c].required)
      && s.configs[c].minNodes == b.min && s.configs[c].maxNodes == b.max
  {
  }

  /** A Stable configuration whose count is reached has nothing left to do. */
  lemma CompletingIsOk(s: State, c: string, cfg: Config, w: int, d: int)
    requires c in s.configs && s.configs[c].phase == Stable && OpenOk(s, c, w, d) && 0 <= d
    requires cfg.required == s.configs[c].required == w + d
    ensures OpenOk(s.(configs := s.configs[c := cfg.(phase := Completed)]), c, w, d)
  {
  }

  lemma SelectingIs(s: State, c: string)
    requires NamesOk(s) && c in s.configs && HasSelecting(s, c)
    ensures var p := s.selectings[SelectingName(c)].phase;
            HandleSelecting(s, c) == if p == SelectCompleted then WithPhase(s, c, Switching)
                                     else if p == SelectFailed then WithPhase(s, c, Failed) else s
  {
    SelectingsOfIs(s, c);
    hide NamesOk, SelectingsOf, SelectingName;
  }

  lemma SwitchingIs(s: State, c: string)
    requires NamesOk(s) && c in s.configs && HasHandling(s, c)
    ensures var p := s.handlings[HandlingName(c)].phase;
            HandleSwitching(s, c) == if p == HandleCompleted then WithPhase(s, c, Completed)
                                     else if p == HandleFailed then WithPhase(s, c, Failed) else s
  {
    HandlingsOfIs(s, c);
    hide NamesOk, HandlingsOf, HandlingName;
  }

  lemma SelectingEndsOk(s: State, c: string, w: int, d: int)
    requires c in s.configs && s.configs[c].phase == Selecting && OpenOk(s, c, w, d)
    ensures s.selectings[SelectingName(c)].phase == SelectCompleted ==> OpenOk(WithPhase(s, c, Switching), c, w, d)
    ensures s.selectings[SelectingName(c)].phase == SelectFailed ==> OpenOk(WithPhase(s, c, Failed), c, w, d)
  {
    hide SelectingName, HandlingName;
  }

  lemma SwitchingEndsOk(s: State, c: string, w: int, d: int)
    requires c in s.configs && s.configs[c].phase == Switching && OpenOk(s, c, w, d)
    ensures HasHandling(s, c)
    ensures s.handlings[HandlingName(c)].phase == HandleCompleted ==> OpenOk(WithPhase(s, c, Completed), c, w, d)
    ensures s.handlings[HandlingName(c)].phase == HandleFailed ==> OpenOk(WithPhase(s, c, Failed), c, w, d)
  {
    hide SelectingName, HandlingName;
  }

  /** An open configuration may change its phase to one whose situation it is in. */
  lemma PhaseChangeKeepsInv(s: State, b: Bounds, c: string, p: ConfigPhase)
    requires Inv(s, b) && c in s.configs && !IsTerminal(s.configs[c].phase)
    requires OpenOk(WithPhase(s, c, p), c, Workers(s), Legacy(s))
    ensures Inv(WithPhase(s, c, p), b)
  {
    hide Inv, OpenOk, Workers, Legacy;
    ConfigChangeKeepsInv(s, b, WithPhase(s, c, p), c);
  }

  lemma SelectingKeepsInv(s: State, b: Bounds, c: string)
    requires Inv(s, b) && c in s.configs && s.configs[c].phase == Selecting
    ensures Inv(HandleSelecting(s, c), b)
  {
    InvAt(s, b, c);
    InvParts(s, b);
    assert HasSelecting(s, c) by { hide Inv, NamesOk, SelectingName, HandlingName, Progress; }
    SelectingEndsOk(s, c, Workers(s), Legacy(s));
    SelectingIs(s, c);
    hide Inv, NamesOk, OpenOk, HandleSelecting, WithPhase, SelectingName, HandlingName, Workers, Legacy;
    if s.selectings[SelectingName(c)].phase == SelectCompleted {
      PhaseChangeKeepsInv(s, b, c, Switching);
    } else if s.selectings[SelectingName(c)].phase == SelectFailed {
      PhaseChangeKeepsInv(s, b, c, Failed);
    }
  }

  lemma SwitchingKeepsInv(s: State, b: Bounds, c: string)
    requires Inv(s, b) && c in s.configs && s.configs[c].phase == Switching
    ensures Inv(HandleSwitching(s, c), b)
  {
    InvAt(s, b, c);
    InvParts(s, b);
    SwitchingEndsOk(s, c, Workers(s), Legacy(s));
    SwitchingIs(s, c);
    hide Inv, NamesOk, OpenOk, HandleSwitching, WithPhase, SelectingName, HandlingName, Workers, Legacy;
    if s.handlings[HandlingName(c)].phase == HandleCompleted {
      PhaseChangeKeepsInv(s, b, c, Completed);
    } else if s.handlings[HandlingName(c)].phase == HandleFailed {
      PhaseChangeKeepsInv(s, b, c, Failed);
    }
  }

  lemma InitialKeepsInv(s: State, b: Bounds, c: string)
    requires Inv(s, b) && c in s.configs && s.configs[c].phase == New
    ensures Inv(HandleInitial(s, c), b)
  {
    InvAt(s, b, c);
    hide Inv, ActiveWorkers, LegacyNodes, CountedNodes, SelectingName, HandlingName;
    ConfigChangeKeepsInv(s, b, HandleInitial(s, c), c);
  }

  lemma CompletedKeepsInv(s: State, b: Bounds, c: string)
    requires Inv(s, b) && c in s.configs && s.configs[c].phase == Completed
    ensures Inv(HandleCompletedPhase(s, c), b)
  {
    InvAt(s, b, c);
    hide Inv, ActiveWorkers, LegacyNodes, CountedNodes, SelectingName, HandlingName;
    ConfigChangeKeepsInv(s, b, HandleCompletedPhase(s, c), c);
  }

  lemma ConfigureKeepsInv(s: State, b: Bounds, c: string)
    requires Inv(s, b)
    ensures Inv(ReconcileConfig(s, c), b)
  {
    hide Inv, HandleInitial, HandleStable, HandleSelecting, HandleSwitching, HandleCompletedPhase;
    if c in s.configs {
      match s.configs[c].phase {
        case New => InitialKeepsInv(s, b, c);
        case Stable => StableKeepsInv(s, b, c);
        case Selecting => SelectingKeepsInv(s, b, c);
        case Switching => SwitchingKeepsInv(s, b, c);
        case Completed => CompletedKeepsInv(s, b, c);
        case _ =>
      }
    }
  }

  // ---------------------------------------------------------------- the selection and handling reconcilers

  /** Something of c is still to act, so c is the open configuration. */
  lemma UnsettledIsOpen(s: State, b: Bounds, c: string)
    requires Inv(s, b) && c in s.configs && !Settled(s, c)
    ensures !IsTerminal(s.configs[c].phase) && s.configs[c].phase != Completed
    ensures forall a :: a in s.configs && a != c ==> IsTerminal(s.configs[a].phase)
  {
    InvAt(s, b, c);
    hide ConfigsOk, ActiveWorkers, LegacyNodes, SelectingName, HandlingName;
  }

  /** Only objects of the open configuration c change, and the counts end up as w and d. */
  lemma ChildChangeKeepsInv(s: State, b: Bounds, t: State, c: string)
    requires Inv(s, b) && c in s.configs && !IsTerminal(s.configs[c].phase)
    requires t.configs == s.configs && NamesOk(t)
    requires OthersKeep(s, t, c)
    requires OpenOk(t, c, Workers(t), Legacy(t))
    requires Legacy(t) == Legacy(s) && WorkersOk(t, b, Workers(t), Legacy(t))
    ensures Inv(t, b)
  {
    hide ActiveWorkers, LegacyNodes, SelectingName, HandlingName;
    forall a | a in t.configs ensures OpenOk(t, a, Workers(t), Legacy(t)) {
      if a != c { TerminalFrame(s, t, a, Workers(s), Legacy(s), Workers(t), Legacy(t)); }
    }
  }

  lemma SelectionChangeIsOk(s: State, t: State, c: string, w: int, d: int, p: SelectPhase)
    requires c in s.configs && !IsTerminal(s.configs[c].phase) && OpenOk(s, c, w, d)
    requires HasSelecting(s, c)
    requires var q := s.selectings[SelectingName(c)].phase; q == SelectNew || q == SelectRunning
    requires p != SelectCompleted
    requires t == s.(selectings := s.selectings[SelectingName(c) := s.selectings[SelectingName(c)].(phase := p)])
    ensures OpenOk(t, c, w, d)
  {
  }

  lemma SelectionIsOk(s: State, t: State, c: string, w: int, d: int, selected: string)
    requires c in s.configs && !IsTerminal(s.configs[c].phase) && OpenOk(s, c, w, d) && 0 <= d
    requires HasSelecting(s, c) && s.selectings[SelectingName(c)].phase == SelectRunning
    requires selected in s.machines
    requires var scaling := s.selectings[SelectingName(c)].scaling;
             || (scaling < 0 && IsScaleDownCandidate(s.machines[selected]) && w >= 2)
             || (scaling > 0 && IsScaleUpCandidate(s.machines[selected]))
    requires var ns := s.selectings[SelectingName(c)];
             t == s.(selectings := s.selectings[
                       SelectingName(c) := ns.(selected := selected, phase := SelectCompleted)],
                     handlings := s.handlings[HandlingName(c) := NodeHandling(c, ns.scaling, selected, HandleNew)])
    ensures OpenOk(t, c, w, d)
  {
  }

  lemma NamesAfterSelecting(s: State, t: State, name: string, ns: NodeSelecting)
    requires NamesOk(s) && name in s.selectings && ns.config == s.selectings[name].config
    requires t == s.(selectings := s.selectings[name := ns])
    ensures NamesOk(t) && OthersKeep(s, t, ns.config)
  {
    hide SelectingName, HandlingName;
    forall a | a != ns.config ensures SameChildren(s, t, a) {
      OtherSelecting(s, name, ns, a);
    }
  }

  lemma NamesAfterHandling(s: State, t: State, c: string, nh: NodeHandling)
    requires NamesOk(s) && HasSelecting(s, c) && nh.config == c
    requires t.configs == s.configs && t.selectings == s.selectings && t.handlings == s.handlings[HandlingName(c) := nh]
    ensures NamesOk(t) && OthersKeep(s, t, c)
  {
    hide SelectingName, HandlingName;
    var m := s.(handlings := t.handlings);
    forall a | a != c ensures SameChildren(s, t, a) {
      OtherHandling(s, HandlingName(c), nh, a);
      assert SameChildren(s, m, a);
    }
  }

  lemma OthersKeepTransitive(s: State, m: State, t: State, c: string)
    requires OthersKeep(s, m, c) && OthersKeep(m, t, c)
    ensures OthersKeep(s, t, c)
  {
    hide SelectingName, HandlingName;
    forall a | a != c ensures SameChildren(s, t, a) {
      assert SameChildren(s, m, a) && SameChildren(m, t, a);
    }
  }

  lemma SelectOpensOrFails(s: State, b: Bounds, name: string, p: SelectPhase)
    requires Inv(s, b) && name in s.selectings && p != SelectCompleted
    requires s.selectings[name].phase == SelectNew || s.selectings[name].phase == SelectRunning
    ensures Inv(s.(selectings := s.selectings[name := s.selectings[name].(phase := p)]), b)
  {
    var c := s.selectings[name].config;
    var ns := s.selectings[name].(phase := p);
    var t := s.(selectings := s.selectings[name := ns]);
    SelectingOwner(s, c);
    UnsettledIsOpen(s, b, c);
    InvAt(s, b, c);
    InvParts(s, b);
    hide Inv, ActiveWorkers, LegacyNodes, SelectingName, HandlingName;
    SelectionChangeIsOk(s, t, c, Workers(s), Legacy(s), p);
    NamesAfterSelecting(s, t, name, ns);
    hide NamesOk, OpenOk, OthersKeep, SelectingName, HandlingName;
    ChildChangeKeepsInv(s, b, t, c);
  }

  /** Two scale-down candidates are two ready workers. */
  lemma TwoCandidates(s: State, node: string)
    requires node in s.machines && IsScaleDownCandidate(s.machines[node]) && HasOtherCandidate(s, node)
    ensures Workers(s) >= 2
  {
    var n :| n in s.machines && n != node && IsScaleDownCandidate(s.machines[n]);
    assert {n, node} <= ActiveWorkers(s.machines);
    SubsetIsSmaller({n, node}, ActiveWorkers(s.machines));
  }

  lemma {:induction false} SubsetIsSmaller(a: set<string>, b: set<string>)
    requires a <= b
    ensures |a| <= |b|
    decreases a
  {
    if a != {} {
      var x :| x in a;
      SubsetIsSmaller(a - {x}, b - {x});
    }
  }

  lemma SelectSucceeds(s: State, b: Bounds, name: string, selected: string)
    requires Inv(s, b) && name in s.selectings && s.selectings[name].phase == SelectRunning
    requires IsEligible(s, s.selectings[name].scaling, selected)
    ensures Inv(CreateNodeHandling(s, s.selectings[name], selected).(
                  selectings := s.selectings[name := s.selectings[name].(selected := selected,
                    phase := SelectCompleted)]), b)
  {
    var c := s.selectings[name].config;
    var ns := s.selectings[name].(selected := selected, phase := SelectCompleted);
    var m := s.(selectings := s.selectings[name := ns]);
    var nh := NodeHandling(c, ns.scaling, selected, HandleNew);
    var t := m.(handlings := m.handlings[HandlingName(c) := nh]);
    SelectingOwner(s, c);
    UnsettledIsOpen(s, b, c);
    InvAt(s, b, c);
    InvParts(s, b);
    hide Inv, ActiveWorkers, LegacyNodes, SelectingName, HandlingName;
    if ns.scaling < 0 { TwoCandidates(s, selected); }
    SelectionIsOk(s, t, c, Workers(s), Legacy(s), selected);
    NamesAfterSelecting(s, m, name, ns);
    NamesAfterHandling(m, t, c, nh);
    OthersKeepTransitive(s, m, t, c);
    hide NamesOk, OpenOk, OthersKeep, SelectingName, HandlingName;
    ChildChangeKeepsInv(s, b, t, c);
  }

  lemma SelectKeepsInv(s: State, b: Bounds, name: string, choice: string)
    requires Inv(s, b)
    ensures Inv(ReconcileSelecting(s, name, choice), b)
  {
    hide Inv, IsEligible, HasNodeToWake, SelectingName, HandlingName;
    var t := ReconcileSelecting(s, name, choice);
    if t != s {
      if s.selectings[name].phase == SelectNew {
        SelectOpensOrFails(s, b, name, SelectRunning);
      } else if IsEligible(s, s.selectings[name].scaling, choice) {
        SelectSucceeds(s, b, name, choice);
      } else {
        SelectOpensOrFails(s, b, name, SelectFailed);
      }
    }
  }

  /** The switch of a pending handling moves the worker count by one. */
  lemma HandleCounts(s: State, name: string, outcome: Outcome)
    requires name in s.handlings && s.handlings[name].phase == HandleRunning
    requires var nh := s.handlings[name];
             && nh.scaling != 0 && nh.selected in s.machines
             && s.machines[nh.selected].role == Worker && s.machines[nh.selected].ready == (nh.scaling < 0)
    ensures var t := ReconcileHandling(s, name, outcome);
            && Legacy(t) == Legacy(s)
            && (Workers(t) == Workers(s) + (if s.handlings[name].scaling > 0 then 1 else -1)
                || (outcome.Failure? && Workers(t) == Workers(s)))
            && t == s.(handlings := s.handlings[name := t.handlings[name]], machines := t.machines)
            && name in t.handlings
            && t.handlings[name] == s.handlings[name].(phase := if outcome.Success? then HandleCompleted
              else HandleFailed)
  {
    var nh := s.handlings[name];
    var m := s.machines[nh.selected];
    SwitchCount(s.machines, nh.selected, if nh.scaling > 0 then SwitchedOn(m, outcome) else SwitchedOff(m, outcome));
    hide ActiveWorkers, LegacyNodes;
  }

  /** What is known of a handling that has yet to act. */
  lemma PendingHandling(s: State, c: string, w: int, d: int)
    requires c in s.configs && !IsTerminal(s.configs[c].phase) && OpenOk(s, c, w, d) && 0 <= d
    requires HasHandling(s, c) && !HasActed(s.handlings[HandlingName(c)])
    ensures var nh := s.handlings[HandlingName(c)];
            && nh.scaling != 0 && nh.selected in s.machines
            && s.machines[nh.selected].role == Worker && s.machines[nh.selected].ready == (nh.scaling < 0)
            && Before(nh.scaling > 0, w, s.configs[c].required, d) && (nh.scaling < 0 ==> w >= 2)
  {
  }

  lemma HandlingChangeIsOk(s: State, t: State, c: string, w: int, d: int, w': int, p: HandlePhase)
    requires c in s.configs && !IsTerminal(s.configs[c].phase) && OpenOk(s, c, w, d)
    requires HasHandling(s, c) && !HasActed(s.handlings[HandlingName(c)])
    requires t.configs == s.configs && t.selectings == s.selectings
    requires t.handlings == s.handlings[HandlingName(c) := s.handlings[HandlingName(c)].(phase := p)]
    requires match p
             case HandleNew => false
             case HandleRunning => t.machines == s.machines && w' == w
             case HandleCompleted => Met(w', s.configs[c].required, d)
             case HandleFailed => w' == w || Met(w', s.configs[c].required, d)
    ensures OpenOk(t, c, w', d)
  {
  }

  lemma HandlingChangeKeepsInv(s: State, b: Bounds, c: string, p: HandlePhase, machines: map<string, Machine>)
    requires Inv(s, b) && HasHandling(s, c) && !HasActed(s.handlings[HandlingName(c)])
    requires c in s.configs && |LegacyNodes(machines)| == Legacy(s)
    requires var w, w', r := Workers(s), |ActiveWorkers(machines)|, s.configs[c].required;
             match p
             case HandleNew => false
             case HandleRunning => machines == s.machines
             case HandleCompleted => Met(w', r, Legacy(s))
             case HandleFailed => w' == w || Met(w', r, Legacy(s))
    requires WorkersOk(s, b, |ActiveWorkers(machines)|, Legacy(s))
    ensures var nh := s.handlings[HandlingName(c)].(phase := p);
            Inv(s.(handlings := s.handlings[HandlingName(c) := nh], machines := machines), b)
  {
    var nh := s.handlings[HandlingName(c)].(phase := p);
    var t := s.(handlings := s.handlings[HandlingName(c) := nh], machines := machines);
    HandlingOwner(s, c);
    UnsettledIsOpen(s, b, c);
    InvAt(s, b, c);
    InvParts(s, b);
    hide Inv, ActiveWorkers, LegacyNodes, SelectingName, HandlingName;
    HandlingChangeIsOk(s, t, c, Workers(s), Legacy(s), Workers(t), p);
    NamesAfterHandling(s, t, c, nh);
    hide NamesOk, OpenOk, OthersKeep, SelectingName, HandlingName;
    ChildChangeKeepsInv(s, b, t, c);
  }

  lemma RunningHandleKeepsInv(s: State, b: Bounds, c: string, outcome: Outcome)
    requires Inv(s, b) && HasHandling(s, c) && s.handlings[HandlingName(c)].phase == HandleRunning
    ensures var t := ReconcileHandling(s, HandlingName(c), outcome); Inv(t, b) && Legacy(t) == Legacy(s)
  {
    var t := ReconcileHandling(s, HandlingName(c), outcome);
    InvParts(s, b);
    HandlingOwner(s, c);
    UnsettledIsOpen(s, b, c);
    InvAt(s, b, c);
    PendingHandling(s, c, Workers(s), Legacy(s));
    hide Inv, ActiveWorkers, LegacyNodes, OpenOk, NamesOk, ReconcileHandling, SelectingName, HandlingName;
    HandleCounts(s, HandlingName(c), outcome);
    HandlingChangeKeepsInv(s, b, c, t.handlings[HandlingName(c)].phase, t.machines);
  }

  lemma NewHandleKeepsInv(s: State, b: Bounds, c: string)
    requires Inv(s, b) && HasHandling(s, c) && s.handlings[HandlingName(c)].phase == HandleNew
    ensures var nh := s.handlings[HandlingName(c)].(phase := HandleRunning);
            Inv(s.(handlings := s.handlings[HandlingName(c) := nh]), b)
  {
    InvParts(s, b);
    HandlingOwner(s, c);
    hide Inv, ActiveWorkers, LegacyNodes, OpenOk, NamesOk, SelectingName, HandlingName;
    HandlingChangeKeepsInv(s, b, c, HandleRunning, s.machines);
  }

  lemma HandleKeepsInv(s: State, b: Bounds, name: string, outcome: Outcome)
    requires Inv(s, b)
    ensures Inv(ReconcileHandling(s, name, outcome), b) && Legacy(ReconcileHandling(s, name, outcome)) == Legacy(s)
  {
    var t := ReconcileHandling(s, name, outcome);
    if t != s {
      InvParts(s, b);
      HandlingOwner(s, s.handlings[name].config);
      assert name == HandlingName(s.handlings[name].config);
      hide Inv, NamesOk, Legacy, HandlingName, SwitchedOn, SwitchedOff;
      if s.handlings[name].phase == HandleRunning {
        hide ReconcileHandling;
        RunningHandleKeepsInv(s, b, s.handlings[name].config, outcome);
      } else {
        NewHandleKeepsInv(s, b, s.handlings[name].config);
        assert t.machines == s.machines && Legacy(t) == Legacy(s) by { SameMachines(s, t); }
      }
    }
  }

  lemma SameMachines(s: State, t: State)
    requires t.machines == s.machines
    ensures Workers(t) == Workers(s) && Legacy(t) == Legacy(s)
  {
  }

  /** Changing the marks of a node changes nothing the protocol rests on. */
  lemma MarkIsOk(s: State, c: string, w: int, d: int, node: string, m: Machine)
    requires c in s.configs && OpenOk(s, c, w, d) && node in s.machines
    requires m.role == s.machines[node].role && m.ready == s.machines[node].ready
    ensures OpenOk(WithMachine(s, node, m), c, w, d)
  {
    hide SelectingName, HandlingName;
  }

  lemma MarkKeepsInv(s: State, b: Bounds, node: string, m: Machine)
    requires Inv(s, b) && node in s.machines
    requires m.role == s.machines[node].role && m.ready == s.machines[node].ready
    ensures Inv(WithMachine(s, node, m), b) && Legacy(WithMachine(s, node, m)) == Legacy(s)
  {
    var t := WithMachine(s, node, m);
    SameReadiness(s.machines, node, m);
    var w, d := Workers(s), Legacy(s);
    hide ActiveWorkers, LegacyNodes, SelectingName, HandlingName;
    assert ConfigsOk(t, b, w, d) by {
      forall c | c in t.configs ensures OpenOk(t, c, w, d) {
        MarkIsOk(s, c, w, d, node, m);
      }
      hide OpenOk, SelectingName, HandlingName;
    }
    hide ConfigsOk, SelectingName, HandlingName;
  }

  // ---------------------------------------------------------------- every run

  lemma InitHolds(s: State, b: Bounds)
    requires Init(s, b)
    ensures Inv(s, b)
  {
  }

  lemma StableKeepsMachines(s: State, c: string)
    requires c in s.configs
    ensures HandleStable(s, c).machines == s.machines
  {
    hide CountedNodes, SelectingsOf, SelectingName;
  }

  lemma ConfigureKeepsMachines(s: State, c: string)
    ensures ReconcileConfig(s, c).machines == s.machines
  {
    if c in s.configs { StableKeepsMachines(s, c); }
    hide HandleStable, CountedNodes, SelectingsOf, HandlingsOf, SelectingName, HandlingName;
  }

  lemma OnlyHandlingChangesMachines(s: State, b: Bounds, step: Step)
    requires !step.Handle? && !step.Cordon? && !step.Annotate?
    ensures Next(s, b, step).machines == s.machines
  {
    if step.Configure? { ConfigureKeepsMachines(s, step.name); }
    hide ActiveWorkers, ReconcileConfig, IsEligible, HasNodeToWake, SelectingName, HandlingName;
  }

  /** Every step of every actor keeps the invariant. */
  lemma {:induction false} NextKeepsInv(s: State, b: Bounds, step: Step)
    requires Inv(s, b)
    ensures Inv(Next(s, b, step), b) && Legacy(Next(s, b, step)) == Legacy(s)
  {
    if !step.Handle? && !step.Cordon? && !step.Annotate? { OnlyHandlingChangesMachines(s, b, step); }
    hide Inv, LegacyNodes, ForecastStep, ReactiveStep, ReconcileConfig, ReconcileSelecting, ReconcileHandling,
         SelectingName, HandlingName;
    match step {
      case Forecast(name, verdict) => ForecastKeepsInv(s, b, name, verdict);
      case Reactive(name) => ReactiveKeepsInv(s, b, name);
      case Configure(name) => ConfigureKeepsInv(s, b, name);
      case Select(name, choice) => SelectKeepsInv(s, b, name, choice);
      case Handle(name, outcome) => HandleKeepsInv(s, b, name, outcome);
      case Cordon(node, value) =>
        if node in s.machines { MarkKeepsInv(s, b, node, s.machines[node].(unschedulable := value)); }
      case Annotate(node, powerCycle, energyProfile) =>
        if node in s.machines {
          MarkKeepsInv(s, b, node, s.machines[node].(powerCycle := powerCycle, energyProfile := energyProfile));
        }
    }
  }

  lemma {:induction false} EveryRunKeepsInv(s: State, b: Bounds, run: seq<Step>, n: nat)
    requires Inv(s, b) && n <= |run|
    ensures Inv(After(s, b, run, n), b) && Legacy(After(s, b, run, n)) == Legacy(s)
  {
    hide Inv, Next, Legacy, SelectingName, HandlingName;
    if n > 0 {
      EveryRunKeepsInv(s, b, run, n - 1);
      NextKeepsInv(After(s, b, run, n - 1), b, run[n - 1]);
    }
  }

  /** Two handlings that have yet to act are the same one. */
  lemma {:induction false} OnePendingHandling(s: State, b: Bounds, j: string, k: string)
    requires Inv(s, b)
    requires j in s.handlings && k in s.handlings && !HasActed(s.handlings[j]) && !HasActed(s.handlings[k])
    ensures j == k
  {
    HandlingOwner(s, s.handlings[j].config);
    HandlingOwner(s, s.handlings[k].config);
    UnsettledIsOpen(s, b, s.handlings[j].config);
    UnsettledIsOpen(s, b, s.handlings[k].config);
  }

  ghost predicate AtMostOnePending(s: State) {
    forall j, k ::
      j in s.handlings && k in s.handlings && !HasActed(s.handlings[j]) && !HasActed(s.handlings[k]) ==> j == k
  }

  /** In every state of every run: at most one open configuration, at most one pending handling, and
      a worker count within the bounds. */
  lemma {:induction false} SafeInEveryRun(s: State, b: Bounds, run: seq<Step>, n: nat)
    requires Init(s, b) && n <= |run|
    ensures var t := After(s, b, run, n);
            && AtMostOneOpen(t)
            && AtMostOnePending(t)
            && Workers(t) <= b.max && Legacy(t) == Legacy(s)
            && (CountsAgreeEnough(b, Legacy(s)) ==> b.min <= Workers(t))
  {
    InitHolds(s, b);
    EveryRunKeepsInv(s, b, run, n);
    var t := After(s, b, run, n);
    forall j, k | j in t.handlings && k in t.handlings && !HasActed(t.handlings[j]) && !HasActed(t.handlings[k])
      ensures j == k {
      OnePendingHandling(t, b, j, k);
    }
  }

  /** A configuration in Switching has exactly one selection, completed, and exactly one handling,
      which carries the selection's label and node; so the test on the unfiltered list never fires. */
  lemma {:induction false} SwitchingHasOneHandling(s: State, b: Bounds, run: seq<Step>, n: nat, c: string)
    requires Init(s, b) && n <= |run|
    requires var t := After(s, b, run, n); c in t.configs && t.configs[c].phase == Switching
    ensures var t := After(s, b, run, n);
            && SelectingsOf(t, c) == {SelectingName(c)}
            && t.selectings[SelectingName(c)].phase == SelectCompleted
            && HandlingsOf(t, c) == {HandlingName(c)}
            && t.handlings[HandlingName(c)].scaling == t.selectings[SelectingName(c)].scaling
            && t.handlings[HandlingName(c)].selected == t.selectings[SelectingName(c)].selected
            && (HandleSwitching(t, c).configs[c].phase == Failed ==> t.handlings[HandlingName(c)].phase == HandleFailed)
  {
    InitHolds(s, b);
    EveryRunKeepsInv(s, b, run, n);
    var t := After(s, b, run, n);
    InvAt(t, b, c);
    SelectingsOfIs(t, c);
    HandlingsOfIs(t, c);
    hide Inv, After, SelectingsOf, HandlingsOf, ActiveWorkers, LegacyNodes, SelectingName, HandlingName;
  }

  /** Without legacy nodes a Completed configuration always finishes: its count is what it asked for. */
  lemma {:induction false} CompletedFinishes(s: State, b: Bounds, run: seq<Step>, n: nat, c: string)
    requires Init(s, b) && n <= |run|
    requires var t := After(s, b, run, n); c in t.configs && t.configs[c].phase == Completed && Legacy(t) == 0
    ensures ReconcileConfig(After(s, b, run, n), c).configs[c].phase == Finished
  {
    InitHolds(s, b);
    EveryRunKeepsInv(s, b, run, n);
    var t := After(s, b, run, n);
    InvAt(t, b, c);
    CountsDifferByLegacy(t.machines);
    hide Inv, After, ActiveWorkers, LegacyNodes, CountedNodes, SelectingName, HandlingName;
  }
}
