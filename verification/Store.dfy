/** The reconcilers and the forecaster as they run: methods that read and write the API server's
    objects. Each method takes exactly the protocol's step, so every run of them is a run of the protocol. */
module Store {
  import opened Options
  import opened Protocol
  import opened ProtocolSafety
  import ProtocolReach
  import Kube
  import Ranking
  import Selection
  import Drain
  import NodeHandler

  /** What one call finds outside the store. The forecaster's calls may fail to list the configurations
      or to create one. */
  datatype Call =
    | ForecastCall(name: string, verdict: Verdict, canList: bool, accepted: bool)
    | ReactiveCall(name: string, canList: bool, accepted: bool)
    | ConfigCall(name: string)
    | SelectCall(name: string, survey: Survey)
    | HandleCall(name: string, replies: Drain.Replies, wentOver: bool)
    | CordonCall(node: string, value: bool)
    | AnnotateCall(node: string, powerCycle: Annotation<int>, energyProfile: Annotation<real>)

  /** What a selection reads besides the nodes: the pods, which of them stay, and the weights. */
  datatype Survey = Survey(
    pods: seq<Kube.Pod>,
    stays: Kube.Pod -> bool,
    weights: Option<Ranking.Weights>,
    weightsScaleUp: Option<Ranking.WeightsScaleUp>,
    root: real -> real)

  /** How the handler's run on the node ends; wentOver tells whether a node whose handling failed had
      changed its readiness all the same. */
  function OutcomeOf(s: State, name: string, r: Drain.Replies, wentOver: bool): Outcome {
    if name in s.handlings && s.handlings[name].selected in s.machines then
      var m := s.machines[s.handlings[name].selected];
      if s.handlings[name].scaling > 0 then OutcomeOfRun(Drain.ScaleUp(m.unschedulable, r), wentOver)
      else OutcomeOfRun(Drain.ScaleDown(m.unschedulable, r), wentOver)
    else Success
  }

  function OutcomeOfRun(result: Drain.Result, wentOver: bool): Outcome {
    if result.ok then Success else Failure(wentOver, result.cordoned)
  }

  /** names lists the elements of s, each once. */
  ghost predicate Lists(names: seq<string>, s: set<string>) {
    && (forall i :: 0 <= i < |names| ==> names[i] in s)
    && (forall k :: k in s ==> k in names)
    && |names| == |s|
  }

  lemma AppendLists(names: seq<string>, s: set<string>, k: string)
    requires Lists(names, s) && k !in s
    ensures Lists(names + [k], s + {k})
  {
  }

  lemma OnlyListed(names: seq<string>, s: set<string>)
    requires Lists(names, s) && |names| == 1
    ensures s == {names[0]}
  {
    assert forall k :: k in names ==> k == names[0];
  }

  ghost function SelectingsOutside(all: map<string, NodeSelecting>, rest: set<string>, config: string): set<string> {
    set k | k in all && k !in rest && all[k].config == config
  }

  lemma AppendNodeSelecting(all: map<string, NodeSelecting>, rest: set<string>, config: string, n: string,
                            mine: seq<string>)
    requires n in rest && n in all && Lists(mine, SelectingsOutside(all, rest, config))
    ensures Lists(if all[n].config == config then mine + [n] else mine, SelectingsOutside(all, rest - {n}, config))
  {
    var before := SelectingsOutside(all, rest, config);
    if all[n].config == config {
      assert SelectingsOutside(all, rest - {n}, config) == before + {n};
      AppendLists(mine, before, n);
    } else {
      assert SelectingsOutside(all, rest - {n}, config) == before;
    }
  }

  ghost function HandlingsOutside(all: map<string, NodeHandling>, rest: set<string>, config: string): set<string> {
    set k | k in all && k !in rest && all[k].config == config
  }

  lemma AppendNodeHandling(all: map<string, NodeHandling>, rest: set<string>, config: string, n: string,
                           mine: seq<string>)
    requires n in rest && n in all && Lists(mine, HandlingsOutside(all, rest, config))
    ensures Lists(if all[n].config == config then mine + [n] else mine, HandlingsOutside(all, rest - {n}, config))
  {
    var before := HandlingsOutside(all, rest, config);
    if all[n].config == config {
      assert HandlingsOutside(all, rest - {n}, config) == before + {n};
      AppendLists(mine, before, n);
    } else {
      assert HandlingsOutside(all, rest - {n}, config) == before;
    }
  }

  class ApiServer {
    var configs: map<string, Config>
    var selectings: map<string, NodeSelecting>
    var handlings: map<string, NodeHandling>
    var machines: map<string, Machine>

    const nodes: seq<Kube.Node>

    function View(): State
      reads this
    {
      State(configs, selectings, handlings, machines)
    }

    /** The nodes are those whose machines are known. */
    ghost predicate Valid()
      reads this
    {
      && (forall i :: 0 <= i < |nodes| ==> nodes[i].name in machines)
      && forall n :: n in machines ==> exists i :: 0 <= i < |nodes| && nodes[i].name == n
    }

    constructor (nodes: seq<Kube.Node>, machines: map<string, Machine>)
      requires forall i :: 0 <= i < |nodes| ==> nodes[i].name in machines
      requires forall n :: n in machines ==> exists i :: 0 <= i < |nodes| && nodes[i].name == n
      ensures Valid() && View() == State(map[], map[], map[], machines)
    {
      this.nodes := nodes;
      configs, selectings, handlings, this.machines := map[], map[], map[], machines;
    }

    // -------------------------------------------------------------- counting and listing

    method NumberOfWorkerNodes() returns (count: nat)
      ensures count == |CountedNodes(machines)|
    {
      count := 0;
      var rest := machines.Keys;
      ghost var done: set<string> := {};
      while rest != {}
        invariant rest + done == machines.Keys && rest !! done
        invariant count == |set n | n in done && IsCountedByController(machines[n])|
        decreases rest
      {
        var n :| n in rest;
        ghost var before := set k | k in done && IsCountedByController(machines[k]);
        ghost var after := set k | k in done + {n} && IsCountedByController(machines[k]);
        if IsCountedByController(machines[n]) {
          assert after == before + {n};
          count := count + 1;
        } else {
          assert after == before;
        }
        rest, done := rest - {n}, done + {n};
      }
      assert CountedNodes(machines) == set n | n in done && IsCountedByController(machines[n]);
    }

    method GetActiveWorker() returns (count: nat)
      ensures count == |ActiveWorkers(machines)|
    {
      count := 0;
      var rest := machines.Keys;
      ghost var done: set<string> := {};
      while rest != {}
        invariant rest + done == machines.Keys && rest !! done
        invariant count == |set n | n in done && IsActiveWorker(machines[n])|
        decreases rest
      {
        var n :| n in rest;
        ghost var before := set k | k in done && IsActiveWorker(machines[k]);
        ghost var after := set k | k in done + {n} && IsActiveWorker(machines[k]);
        if IsActiveWorker(machines[n]) {
          assert after == before + {n};
          count := count + 1;
        } else {
          assert after == before;
        }
        rest, done := rest - {n}, done + {n};
      }
      assert ActiveWorkers(machines) == set n | n in done && IsActiveWorker(machines[n]);
    }

    method ListSelectings(config: string) returns (mine: seq<string>)
      ensures Lists(mine, SelectingsOf(View(), config))
    {
      mine := [];
      var all := selectings;
      var rest := all.Keys;
      while rest != {}
        invariant rest <= all.Keys
        invariant Lists(mine, SelectingsOutside(all, rest, config))
        decreases rest
      {
        var n :| n in rest;
        AppendNodeSelecting(all, rest, config, n, mine);
        if all[n].config == config { mine := mine + [n]; }
        rest := rest - {n};
      }
      assert SelectingsOf(View(), config) == SelectingsOutside(all, rest, config);
    }

    method ListHandlings(config: string) returns (mine: seq<string>)
      ensures Lists(mine, HandlingsOf(View(), config))
    {
      mine := [];
      var all := handlings;
      var rest := all.Keys;
      while rest != {}
        invariant rest <= all.Keys
        invariant Lists(mine, HandlingsOutside(all, rest, config))
        decreases rest
      {
        var n :| n in rest;
        AppendNodeHandling(all, rest, config, n, mine);
        if all[n].config == config { mine := mine + [n]; }
        rest := rest - {n};
      }
      assert HandlingsOf(View(), config) == HandlingsOutside(all, rest, config);
    }

    // -------------------------------------------------------------- the ClusterConfiguration reconciler

    method CreateNodeSelecting(config: string, scaling: int)
      modifies this`selectings
      ensures View() == Protocol.CreateNodeSelecting(old(View()), config, scaling)
    {
      var mine := ListSelectings(config);
      if |mine| > 0 {
        assert mine[0] in SelectingsOf(View(), config);
        return;
      }
      assert SelectingsOf(View(), config) == {};
      if SelectingName(config) !in selectings {
        selectings := selectings[SelectingName(config) := NodeSelecting(config, scaling, "", SelectNew)];
      }
    }

    method HandleInitialPhase(name: string)
      requires name in configs
      modifies this`configs
      ensures View() == HandleInitial(old(View()), name)
    {
      var active := NumberOfWorkerNodes();
      configs := configs[name := configs[name].(phase := Stable, active := active)];
    }

    method HandleStablePhase(name: string)
      requires name in configs
      modifies this`configs, this`selectings
      ensures View() == HandleStable(old(View()), name)
    {
      var c := configs[name];
      var updated := NumberOfWorkerNodes();
      if updated != c.active { c := c.(active := updated); }
      if c.active == c.required {
        configs := configs[name := c.(phase := Completed)];
        return;
      }
      if c.required > c.maxNodes || c.required < c.minNodes {
        configs := configs[name := c.(phase := Failed)];
        return;
      }
      if c.active < c.required {
        var most := if c.maxNodes < c.required then c.maxNodes else c.required;
        assert most != c.active;  // the bounds were tested, so the difference is never zero
        CreateNodeSelecting(name, most - c.active);
        return;  // no status write on this path
      } else {
        var least := if c.required < c.minNodes then c.minNodes else c.required;
        assert least != c.active;
        CreateNodeSelecting(name, least - c.active);
      }
      configs := configs[name := c.(phase := Selecting)];
    }

    method SetPhase(name: string, p: ConfigPhase)
      requires name in configs
      modifies this`configs
      ensures View() == WithPhase(old(View()), name, p)
    {
      configs := configs[name := configs[name].(phase := p)];
    }

    method HandleSelectingPhase(name: string) returns (proceed: bool)
      requires name in configs
      modifies this`configs
      ensures View() == HandleSelecting(old(View()), name)
      ensures proceed ==> configs[name].phase == Switching
    {
      var mine := ListSelectings(name);
      proceed := false;
      if |mine| == 1 {
        OnlyListed(mine, SelectingsOf(View(), name));
        if selectings[mine[0]].phase == SelectCompleted {
          SetPhase(name, Switching);
          proceed := true;
        } else if selectings[mine[0]].phase == SelectFailed {
          SetPhase(name, Failed);
        }
      } else if |mine| > 1 {
        SetPhase(name, Failed);
      }
    }

    method HandleSwitchingPhase(name: string) returns (proceed: bool)
      requires name in configs
      modifies this`configs
      ensures View() == HandleSwitching(old(View()), name)
      ensures proceed ==> configs[name].phase == Completed
    {
      var mine := ListHandlings(name);
      proceed := false;
      if |mine| == 1 {
        OnlyListed(mine, HandlingsOf(View(), name));
        if handlings[mine[0]].phase == HandleCompleted {
          SetPhase(name, Completed);
          proceed := true;
        } else if handlings[mine[0]].phase == HandleFailed {
          SetPhase(name, Failed);
        }
      } else if |handlings| > 1 {
        SetPhase(name, Failed);
      }
    }

    method HandleCompletedPhase(name: string)
      requires name in configs
      modifies this`configs
      ensures View() == Protocol.HandleCompletedPhase(old(View()), name)
    {
      var updated := NumberOfWorkerNodes();
      var current := configs[name];
      if updated != current.required {
        current := current.(phase := Failed);
      } else {
        current := current.(active := updated, phase := Finished);
      }
      configs := configs[name := current];
    }

    method ReconcileConfig(name: string)
      modifies this`configs, this`selectings
      ensures View() == Protocol.ReconcileConfig(old(View()), name)
    {
      if name !in configs { return; }
      match configs[name].phase {
        case New => HandleInitialPhase(name);
        case Stable => HandleStablePhase(name);
        case Selecting => var _ := HandleSelectingPhase(name);
        case Switching => var _ := HandleSwitchingPhase(name);
        case Completed => HandleCompletedPhase(name);
        case _ =>
      }
    }

    // -------------------------------------------------------------- the NodeSelecting reconciler

    /** Whether another selection of the same configuration is running. */
    method AnotherSelectionRuns(name: string) returns (found: bool)
      requires name in selectings
      ensures found <==> exists k :: k in selectings && k != name && selectings[k].config == selectings[name].config
                                     && selectings[k].phase == SelectRunning
    {
      var rest := selectings.Keys;
      while rest != {}
        invariant rest <= selectings.Keys
        invariant forall k :: k in selectings.Keys - rest ==>
                    !(k != name && selectings[k].config == selectings[name].config
                      && selectings[k].phase == SelectRunning)
        decreases rest
      {
        var k :| k in rest;
        if k != name && selectings[k].config == selectings[name].config && selectings[k].phase == SelectRunning {
          return true;
        }
        rest := rest - {k};
      }
      return false;
    }

    /** The nodes with what is known of them. */
    method ListNodes() returns (listed: seq<Selection.Listed>)
      requires Valid()
      ensures Selection.Describes(machines, listed)
    {
      listed := [];
      for i := 0 to |nodes|
        invariant |listed| == i
        invariant forall j :: 0 <= j < i ==> listed[j] == Selection.Listed(nodes[j], machines[nodes[j].name])
      {
        listed := listed + [Selection.Listed(nodes[i], machines[nodes[i].name])];
      }
      forall n | n in machines ensures exists i :: 0 <= i < |listed| && listed[i].node.name == n {
        var i :| 0 <= i < |nodes| && nodes[i].name == n;
        assert listed[i].node.name == n;
      }
    }

    /** Ranks the nodes for a scale-down or a scale-up. */
    method SelectNode(scaling: int, survey: Survey) returns (r: Selection.Selected)
      requires Valid()
      ensures r.Chosen? ==> IsEligible(View(), scaling, r.node)
      ensures scaling > 0 && r == Selection.NoNode ==> !HasNodeToWake(View())
    {
      var listed := ListNodes();
      hide Selection.Describes, IsEligible, HasNodeToWake, Selection.IsBacked, Selection.IsAccounted,
           Selection.Candidates,
           Selection.Wakeable, Ranking.IsFirstBest, Ranking.Scored, Ranking.ScoredScaleUp;
      r := Selection.NoNode;
      if scaling < 0 {
        var cluster := Kube.Cluster(nodes, survey.pods);
        var cs;
        r, cs := Selection.SelectNodeScaleDown(listed, cluster, survey.stays, machines, survey.weights, survey.root);
        if r.Chosen? {
          ghost var b: nat :| b < |cs| && r.node == cs[b].node;
          Selection.RatedNodeIsEligible(cs[b], cluster, listed, survey.stays, View(), scaling);
        }
      } else if scaling > 0 {
        r := Selection.SelectNodeScaleUp(listed, survey.weightsScaleUp, survey.root);
        Selection.WakeableIsEligible(listed, View(), scaling);
      }
    }

    /** erred: the ranking had no weights, so the call ends in an error and is repeated. Every other call
        ranks as the fair runs of the protocol ask. */
    method ReconcileSelecting(name: string, survey: Survey) returns (erred: bool, ghost choice: string)
      requires Valid()
      modifies this`selectings, this`handlings
      ensures Valid()
      ensures View() == if erred then old(View()) else Protocol.ReconcileSelecting(old(View()), name, choice)
      ensures !erred ==> RanksWell(old(View()), name, choice)
    {
      erred, choice := false, "";
      if name !in selectings { return; }
      var ns := selectings[name];
      if ns.phase == SelectNew {
        var another := AnotherSelectionRuns(name);
        if another { return; }
        selectings := selectings[name := ns.(phase := SelectRunning)];
      } else if ns.phase == SelectRunning {
        var selected := SelectNode(ns.scaling, survey);
        hide IsEligible, HasNodeToWake;
        match selected {
          case NoWeights => erred := true; return;
          case NoNode =>
            choice := ProtocolReach.FreshName(machines.Keys);
            NotEligible(View(), ns.scaling, choice);
            ns := ns.(phase := SelectFailed);
          case Chosen(node) =>
            choice := node;
            if HandlingName(ns.config) in handlings { return; }  // the creation fails
            handlings := handlings[HandlingName(ns.config) := NodeHandling(ns.config, ns.scaling, node, HandleNew)];
            ns := ns.(selected := node, phase := SelectCompleted);
        }
        selectings := selectings[name := ns];
      }
    }

    // -------------------------------------------------------------- the NodeHandling reconciler

    method AnotherHandlingRuns(name: string) returns (found: bool)
      requires name in handlings
      ensures found <==> exists k :: k in handlings && k != name && handlings[k].config == handlings[name].config
                                     && handlings[k].phase == HandleRunning
    {
      var rest := handlings.Keys;
      while rest != {}
        invariant rest <= handlings.Keys
        invariant forall k :: k in handlings.Keys - rest ==>
                    !(k != name && handlings[k].config == handlings[name].config && handlings[k].phase == HandleRunning)
        decreases rest
      {
        var k :| k in rest;
        if k != name && handlings[k].config == handlings[name].config && handlings[k].phase == HandleRunning {
          return true;
        }
        rest := rest - {k};
      }
      return false;
    }

    method SwitchNodeOn(node: string, r: Drain.Replies, wentOver: bool) returns (ok: bool)
      requires node in machines
      modifies this`machines
      ensures var m, result := old(machines)[node], Drain.ScaleUp(old(machines)[node].unschedulable, r);
              ok == result.ok && machines == old(machines)[node := SwitchedOn(m, OutcomeOfRun(result, wentOver))]
      // the node is on when that succeeds, marked as the run leaves it, and counts one power cycle more
      ensures var m := old(machines)[node];
              machines == old(machines)[node :=
                            m.(ready := m.ready || ok || wentOver,
                               unschedulable := Drain.ScaleUp(m.unschedulable, r).cordoned,
                               powerCycle := if ok then Parsed(PowerCycles(m) + 1) else m.powerCycle)]
    {
      var m := machines[node];
      Drain.ScaleUpCounts(m.unschedulable, r);
      hide Drain.ScaleUp;
      var handler := new NodeHandler.Handler(m.unschedulable);
      ok := handler.ScaleUp(r);
      m := m.(ready := m.ready || ok || wentOver, unschedulable := handler.unschedulable);
      if ok { m := m.(powerCycle := Parsed(PowerCycles(m) + 1)); }
      machines := machines[node := m];
    }

    method SwitchNodeOff(node: string, r: Drain.Replies, wentOver: bool) returns (ok: bool)
      requires node in machines
      modifies this`machines
      ensures var m, result := old(machines)[node], Drain.ScaleDown(old(machines)[node].unschedulable, r);
              ok == result.ok && machines == old(machines)[node := SwitchedOff(m, OutcomeOfRun(result, wentOver))]
      // the node is off when that succeeds, and marked as the run leaves it
      ensures var m := old(machines)[node];
              machines == old(machines)[node := m.(ready := m.ready && !ok && !wentOver,
                                                   unschedulable := Drain.ScaleDown(m.unschedulable, r).cordoned)]
    {
      var m := machines[node];
      if Drain.ScaleDown(m.unschedulable, r).ok { Drain.SuccessEndsOff(m.unschedulable, r); }
      hide Drain.ScaleDown;
      var handler := new NodeHandler.Handler(m.unschedulable);
      ok := handler.ScaleDown(r);
      m := m.(ready := m.ready && !ok && !wentOver, unschedulable := handler.unschedulable);
      machines := machines[node := m];
    }

    method ReconcileHandling(name: string, r: Drain.Replies, wentOver: bool)
      requires Valid()
      modifies this`handlings, this`machines
      ensures Valid()
      ensures View() == Protocol.ReconcileHandling(old(View()), name, OutcomeOf(old(View()), name, r, wentOver))
      // a running handling completes exactly when nothing is asked, or the run on its node succeeds
      ensures name in old(handlings) && old(handlings)[name].phase == HandleRunning ==>
                var nh, before := old(handlings)[name], old(machines);
                && name in handlings
                && handlings[name].phase
                   == if nh.scaling == 0
                         || (nh.selected in before
                             && if nh.scaling > 0 then Drain.ScaleUp(before[nh.selected].unschedulable, r).ok
                                else Drain.ScaleDown(before[nh.selected].unschedulable, r).ok)
                      then HandleCompleted else HandleFailed
    {
      if name !in handlings { return; }
      var nh := handlings[name];
      if nh.phase == HandleNew {
        var another := AnotherHandlingRuns(name);
        if another { return; }
        nh := nh.(phase := HandleRunning);
      } else if nh.phase == HandleRunning {
        var failed := false;
        if nh.scaling != 0 {
          var ok := false;
          if nh.selected in machines && nh.scaling > 0 {
            ok := SwitchNodeOn(nh.selected, r, wentOver);
          } else if nh.selected in machines {
            ok := SwitchNodeOff(nh.selected, r, wentOver);
          }
          failed := !ok;
        }
        hide Drain.ScaleUp, Drain.ScaleDown, SwitchedOn, SwitchedOff;
        nh := nh.(phase := if failed then HandleFailed else HandleCompleted);
      } else {
        return;
      }
      handlings := handlings[name := nh];
    }

    // -------------------------------------------------------------- the forecaster

    /** When the configurations cannot be listed, one is taken to be open. */
    method IsScalingInProgress(canList: bool) returns (open: bool)
      ensures open <==> !canList || ScalingInProgress(View())
    {
      if !canList { return true; }
      var rest := configs.Keys;
      while rest != {}
        invariant rest <= configs.Keys
        invariant forall c :: c in configs.Keys - rest ==> IsTerminal(configs[c].phase)
        decreases rest
      {
        var c :| c in rest;
        if !IsTerminal(configs[c].phase) { return true; }
        rest := rest - {c};
      }
      return false;
    }

    /** accepted: the API server does not reject the creation for a reason of its own. */
    method CreateClusterConfiguration(name: string, required: int, b: Bounds, canList: bool, accepted: bool)
      returns (created: bool)
      modifies this`configs
      ensures View() == if canList && accepted then CreateConfig(old(View()), name, required, b) else old(View())
      ensures created <==> canList && accepted && !ScalingInProgress(old(View())) && name !in old(configs)
    {
      var open := IsScalingInProgress(canList);
      if open || name in configs || !accepted { return false; }
      configs := configs[name := Config(required, b.min, b.max, 0, New)];
      return true;
    }

    method Forecast(name: string, verdict: Verdict, b: Bounds, canList: bool, accepted: bool)
      modifies this`configs
      ensures View() == if canList && accepted then ForecastStep(old(View()), b, name, verdict) else old(View())
      // one worker more or fewer is asked for, within both bounds, or nothing happens
      ensures var change := match verdict case Shrink => -1 case Keep => 0 case Grow => 1;
              var required := |set n | n in machines && machines[n].role == Worker && machines[n].ready| + change;
              configs == if canList && accepted && change != 0 && b.min <= required <= b.max && name !in old(configs)
                            && (forall c :: c in old(configs) ==>
                                  old(configs)[c].phase == Finished || old(configs)[c].phase == ConfigPhase.Failed)
                         then old(configs)[name := Config(required, b.min, b.max, 0, New)] else old(configs)
    {
      var active := GetActiveWorker();
      assert ActiveWorkers(machines) == set n | n in machines && machines[n].role == Worker && machines[n].ready;
      if verdict == Keep { return; }
      var required := active + Delta(verdict);
      if required >= b.min && required <= b.max {
        var _ := CreateClusterConfiguration(name, required, b, canList, accepted);
      }
    }

    method React(name: string, b: Bounds, canList: bool, accepted: bool)
      modifies this`configs
      ensures View() == if canList && accepted then ReactiveStep(old(View()), b, name) else old(View())
      // one worker more is asked for, within the upper bound, or nothing happens
      ensures var required := |set n | n in machines && machines[n].role == Worker && machines[n].ready| + 1;
              configs == if canList && accepted && required <= b.max && name !in old(configs)
                            && (forall c :: c in old(configs) ==>
                                  old(configs)[c].phase == Finished || old(configs)[c].phase == ConfigPhase.Failed)
                         then old(configs)[name := Config(required, b.min, b.max, 0, New)] else old(configs)
    {
      var active := GetActiveWorker();
      assert ActiveWorkers(machines) == set n | n in machines && machines[n].role == Worker && machines[n].ready;
      var required := active + 1;
      if required > b.max { return; }
      var _ := CreateClusterConfiguration(name, required, b, canList, accepted);
    }

    // -------------------------------------------------------------- whole runs

    /** Any call is a step of the protocol; one that achieves nothing is a reconcile call for a
        configuration that does not exist. */
    method Execute(b: Bounds, call: Call) returns (ghost step: Step)
      requires Valid()
      modifies this
      ensures Valid() && View() == Next(old(View()), b, step)
    {
      hide ForecastStep, ReactiveStep, Protocol.ReconcileConfig, Protocol.ReconcileSelecting,
           Protocol.ReconcileHandling,
           OutcomeOf, CreateConfig;
      ghost var nobody := ProtocolReach.FreshName(configs.Keys);
      step := Configure(nobody);
      assert Protocol.ReconcileConfig(View(), nobody) == View() by { NobodyIsReconciled(View(), nobody); }
      match call {
        case ForecastCall(name, verdict, canList, accepted) =>
          Forecast(name, verdict, b, canList, accepted);
          if canList && accepted { step := Step.Forecast(name, verdict); }
        case ReactiveCall(name, canList, accepted) =>
          React(name, b, canList, accepted);
          if canList && accepted { step := Reactive(name); }
        case ConfigCall(name) =>
          ReconcileConfig(name);
          step := Configure(name);
        case SelectCall(name, survey) =>
          var erred: bool;
          ghost var choice;
          erred, choice := ReconcileSelecting(name, survey);
          if !erred { step := Select(name, choice); }
        case HandleCall(name, replies, wentOver) =>
          step := Handle(name, OutcomeOf(View(), name, replies, wentOver));
          ReconcileHandling(name, replies, wentOver);
        case CordonCall(node, value) =>
          step := Cordon(node, value);
          if node in machines { machines := machines[node := machines[node].(unschedulable := value)]; }
        case AnnotateCall(node, powerCycle, energyProfile) =>
          step := Annotate(node, powerCycle, energyProfile);
          if node in machines {
            machines := machines[node := machines[node].(powerCycle := powerCycle, energyProfile := energyProfile)];
          }
      }
    }

    /** Whatever the calls and whatever they find outside: at most one configuration is open, and the
        number of ready workers stays within the bounds. */
    method Run(b: Bounds, calls: seq<Call>)
      requires Valid() && Init(View(), b)
      modifies this
      ensures Valid() && AtMostOneOpen(View()) && AtMostOnePending(View())
      ensures |ActiveWorkers(machines)| <= b.max
      ensures CountsAgreeEnough(b, old(Legacy(View()))) ==> b.min <= |ActiveWorkers(machines)|
    {
      hide Init, AtMostOneOpen, AtMostOnePending, ActiveWorkers, Next, Legacy, CountsAgreeEnough;
      ghost var start := View();
      ghost var run: seq<Step> := [];
      assert After(start, b, run, 0) == start;
      for i := 0 to |calls|
        invariant Valid() && |run| == i && View() == After(start, b, run, i)
      {
        ghost var step := Execute(b, calls[i]);
        AfterOneMore(start, b, run, step);
        run := run + [step];
      }
      SafeInEveryRun(start, b, run, |run|);
    }
  }

  lemma NotEligible(s: State, scaling: int, choice: string)
    requires choice !in s.machines
    ensures !IsEligible(s, scaling, choice)
  {
  }

  lemma NobodyIsReconciled(s: State, name: string)
    requires name !in s.configs
    ensures Protocol.ReconcileConfig(s, name) == s
  {
  }

  lemma {:induction false} AfterPrefix(s: State, b: Bounds, run: seq<Step>, step: Step, n: nat)
    requires n <= |run|
    ensures After(s, b, run + [step], n) == After(s, b, run, n)
  {
    hide Next;
    if n > 0 { AfterPrefix(s, b, run, step, n - 1); }
  }

  lemma AfterOneMore(s: State, b: Bounds, run: seq<Step>, step: Step)
    ensures After(s, b, run + [step], |run| + 1) == Next(After(s, b, run, |run|), b, step)
  {
    AfterPrefix(s, b, run, step, |run|);
    hide Next;
  }
}
