/** What a step of each reconciler does to the objects, field by field, and what runs do to a node. */
module ProtocolSteps {
  import opened Protocol

  // ---------------------------------------------------------------- the configuration reconciler

  /** How many nodes the controllers count: ready and without the control-plane label. */
  ghost function Counted(s: State): nat {
    |set n | n in s.machines && s.machines[n].ready
             && (s.machines[n].role == Worker || s.machines[n].role == LegacyMaster)|
  }

  lemma CountedIs(s: State)
    ensures |CountedNodes(s.machines)| == Counted(s)
  {
    assert CountedNodes(s.machines)
        == set n | n in s.machines && s.machines[n].ready
                   && (s.machines[n].role == Worker || s.machines[n].role == LegacyMaster);
  }

  /** Only this configuration may differ. */
  ghost predicate OnlyConfig(s: State, t: State, name: string) {
    && t.machines == s.machines && t.handlings == s.handlings && t.configs.Keys == s.configs.Keys
    && forall c :: c in s.configs && c != name ==> t.configs[c] == s.configs[c]
  }

  ghost predicate HasSelection(s: State, config: string) {
    exists k :: k in s.selectings && s.selectings[k].config == config
  }

  /** A configuration that is Stable ends when the count is the request or the request is out of bounds;
      otherwise the difference is asked of a new selection, unless there is one, and only a request for
      fewer nodes moves on to Selecting. */
  lemma {:induction false} StableStep(s: State, name: string)
    requires name in s.configs && s.configs[name].phase == Stable
    ensures var c, t := s.configs[name], ReconcileConfig(s, name);
            var inBounds := c.minNodes <= c.required <= c.maxNodes;
            && OnlyConfig(s, t, name)
            && (Counted(s) == c.required ==> t.configs[name] == c.(phase := Completed, active := Counted(s)))
            && (Counted(s) != c.required && !inBounds ==>
                  t.configs[name] == c.(phase := ConfigPhase.Failed, active := Counted(s)))
            && (Counted(s) < c.required && inBounds ==> t.configs == s.configs)
            && (Counted(s) > c.required && inBounds ==>
                  t.configs[name] == c.(phase := Selecting, active := Counted(s)))
            && t.selectings
               == if Counted(s) != c.required && inBounds && !HasSelection(s, name)
                     && "node-selecting-" + name !in s.selectings
                  then s.selectings["node-selecting-" + name :=
                                    NodeSelecting(name, c.required - Counted(s), "", SelectNew)]
                  else s.selectings
  {
    CountedIs(s);
    hide CountedNodes, Counted;
    assert HasSelection(s, name) <==> SelectingsOf(s, name) != {} by {
      if HasSelection(s, name) {
        var k :| k in s.selectings && s.selectings[k].config == name;
        assert k in SelectingsOf(s, name);
      }
    }
  }

  /** A new configuration becomes Stable with the count; a Completed one ends well exactly when the count
      is the request. */
  lemma {:induction false} CountingStep(s: State, name: string)
    requires name in s.configs
    ensures var c, t := s.configs[name], ReconcileConfig(s, name);
            && (c.phase == New || c.phase == Completed ==> OnlyConfig(s, t, name) && t.selectings == s.selectings)
            && (c.phase == New ==> t.configs[name] == c.(phase := Stable, active := Counted(s)))
            && (c.phase == Completed && Counted(s) == c.required ==>
                  t.configs[name] == c.(phase := Finished, active := Counted(s)))
            && (c.phase == Completed && Counted(s) != c.required ==>
                  t.configs[name] == c.(phase := ConfigPhase.Failed))
            && (c.phase == Finished || c.phase == ConfigPhase.Failed ==> t == s)
  {
    CountedIs(s);
    hide CountedNodes, Counted;
  }

  /** k is the one selection of the configuration. */
  ghost predicate IsOnlySelection(s: State, config: string, k: string) {
    && k in s.selectings && s.selectings[k].config == config
    && forall j :: j in s.selectings && s.selectings[j].config == config ==> j == k
  }

  ghost predicate IsOnlyHandling(s: State, config: string, k: string) {
    && k in s.handlings && s.handlings[k].config == config
    && forall j :: j in s.handlings && s.handlings[j].config == config ==> j == k
  }

  /** A configuration in Selecting follows its one selection, waits for a first one, and fails with
      several. */
  lemma {:induction false} SelectingStep(s: State, name: string)
    requires name in s.configs && s.configs[name].phase == Selecting
    ensures var c, t := s.configs[name], ReconcileConfig(s, name);
            && OnlyConfig(s, t, name) && t.selectings == s.selectings
            && (!HasSelection(s, name) ==> t == s)
            && (forall k :: IsOnlySelection(s, name, k) ==>
                  t.configs[name] == match s.selectings[k].phase
                                     case SelectCompleted => c.(phase := Switching)
                                     case SelectFailed => c.(phase := ConfigPhase.Failed)
                                     case _ => c)
            && (HasSelection(s, name) && (forall k :: !IsOnlySelection(s, name, k)) ==>
                  t.configs[name] == c.(phase := ConfigPhase.Failed))
  {
    var mine := SelectingsOf(s, name);
    if k :| IsOnlySelection(s, name, k) {
      assert mine == {k};
      assert forall j :: IsOnlySelection(s, name, j) ==> j == k;
    } else if HasSelection(s, name) {
      var k :| k in s.selectings && s.selectings[k].config == name;
      assert !IsOnlySelection(s, name, k);
      var j :| j in s.selectings && s.selectings[j].config == name && j != k;
      AtLeastTwo(mine, k, j);
    } else {
      assert mine == {};
    }
  }

  lemma AtLeastTwo(names: set<string>, k: string, j: string)
    requires k in names && j in names && k != j
    ensures |names| > 1
  {
    assert {k, j} <= names && |names - {k, j}| == |names| - |{k, j}|;
  }

  /** A configuration in Switching follows its one handling. Without exactly one it waits as long as there
      is at most one handling in the whole store, and fails otherwise. */
  lemma {:induction false} SwitchingStep(s: State, name: string)
    requires name in s.configs && s.configs[name].phase == Switching
    ensures var c, t := s.configs[name], ReconcileConfig(s, name);
            && OnlyConfig(s, t, name) && t.selectings == s.selectings
            && (forall k :: IsOnlyHandling(s, name, k) ==>
                  t.configs[name] == match s.handlings[k].phase
                                     case HandleCompleted => c.(phase := Completed)
                                     case HandleFailed => c.(phase := ConfigPhase.Failed)
                                     case _ => c)
            && ((forall k :: !IsOnlyHandling(s, name, k)) ==>
                  t.configs[name] == if |s.handlings| > 1 then c.(phase := ConfigPhase.Failed) else c)
  {
    var mine := HandlingsOf(s, name);
    if k :| IsOnlyHandling(s, name, k) {
      assert mine == {k};
      assert forall j :: IsOnlyHandling(s, name, j) ==> j == k;
    } else if |mine| == 1 {
      var k :| k in mine;
      assert !IsOnlyHandling(s, name, k);
      var j :| j in s.handlings && s.handlings[j].config == name && j != k;
      AtLeastTwo(mine, k, j);
    }
  }

  // ---------------------------------------------------------------- the selection reconciler

  /** Another selection of the configuration is running. */
  ghost predicate IsHeldBack(s: State, name: string)
    requires name in s.selectings
  {
    exists k :: k in s.selectings && k != name && s.selectings[k].config == s.selectings[name].config
                && s.selectings[k].phase == SelectRunning
  }

  /** A worker that can be switched off: ready, schedulable, with an energy profile and no unreadable power
      cycles, and with another ready and schedulable worker beside it. */
  ghost predicate CanSleep(s: State, node: string) {
    && node in s.machines && s.machines[node].role == Worker && s.machines[node].ready
    && !s.machines[node].unschedulable && s.machines[node].energyProfile.Parsed?
    && !s.machines[node].powerCycle.Malformed?
    && exists n :: n in s.machines && n != node && s.machines[n].role == Worker && s.machines[n].ready
                   && !s.machines[n].unschedulable
  }

  /** A worker that can be switched on: off, with both annotations. */
  ghost predicate CanBeWoken(s: State, node: string) {
    && node in s.machines && s.machines[node].role == Worker && !s.machines[node].ready
    && s.machines[node].energyProfile.Parsed? && s.machines[node].powerCycle.Parsed?
  }

  /** A selection starts unless another one of its configuration runs. A running one that names a suitable
      node completes with it and hands it over, with its own request, under a name that is free. */
  lemma {:induction false} SelectStep(s: State, name: string, choice: string)
    requires name in s.selectings
    ensures var ns, t := s.selectings[name], ReconcileSelecting(s, name, choice);
            var suits := (ns.scaling < 0 && CanSleep(s, choice)) || (ns.scaling > 0 && CanBeWoken(s, choice));
            var free := "node-handling-" + ns.config !in s.handlings;
            && t.configs == s.configs && t.machines == s.machines && t.selectings.Keys == s.selectings.Keys
            && (forall k :: k in s.selectings && k != name ==> t.selectings[k] == s.selectings[k])
            && t.handlings == (if ns.phase == SelectRunning && suits && free
                               then s.handlings["node-handling-" + ns.config :=
                                                NodeHandling(ns.config, ns.scaling, choice, HandleNew)]
                               else s.handlings)
            && (ns.phase == SelectNew ==>
                  t.selectings[name] == if IsHeldBack(s, name) then ns else ns.(phase := SelectRunning))
            && (ns.phase == SelectRunning && suits ==>
                  t.selectings[name] == if free then ns.(selected := choice, phase := SelectCompleted) else ns)
            && (ns.phase == SelectRunning && !suits ==>
                  t.selectings[name] == if ns.scaling > 0 && exists n :: CanBeWoken(s, n)
                                        then ns else ns.(phase := SelectFailed))
            && (ns.phase == SelectCompleted || ns.phase == SelectFailed ==> t == s)
  {
    assert IsEligible(s, s.selectings[name].scaling, choice) <==>
           (s.selectings[name].scaling < 0 && CanSleep(s, choice))
           || (s.selectings[name].scaling > 0 && CanBeWoken(s, choice));
    assert forall n :: CanBeWoken(s, n) <==> n in s.machines && CanWake(s.machines[n]);
    assert HasNodeToWake(s) <==> exists n :: CanBeWoken(s, n);
    hide IsEligible, HasNodeToWake, CanSleep, CanBeWoken;
  }

  // ---------------------------------------------------------------- the handling reconciler

  /** Only this node may differ. */
  ghost predicate OnlyNode(s: State, t: State, node: string) {
    && t.machines.Keys == s.machines.Keys
    && forall n :: n in s.machines && n != node ==> t.machines[n] == s.machines[n]
  }

  /** The node is on and takes pods again, and one more power cycle is counted. */
  ghost predicate IsOnAgain(m: Machine, after: Machine) {
    && after.ready && !after.unschedulable && after.role == m.role && after.energyProfile == m.energyProfile
    && after.powerCycle == Parsed(1 + match m.powerCycle case Missing => 0 case Malformed(p) => p case Parsed(c) => c)
  }

  /** The node is off and takes no pods; nothing is counted. */
  ghost predicate IsOff(m: Machine, after: Machine) {
    !after.ready && after.unschedulable && after == m.(ready := false, unschedulable := true)
  }

  /** A running handling acts on the node it was given and on no other: it switches it on or off by the
      sign of its request and completes, or fails and leaves the node as reported. */
  lemma {:induction false} HandleStep(s: State, name: string, outcome: Outcome)
    requires name in s.handlings && s.handlings[name].phase == HandleRunning
    ensures var nh, t := s.handlings[name], ReconcileHandling(s, name, outcome);
            && t.configs == s.configs && t.selectings == s.selectings && t.handlings.Keys == s.handlings.Keys
            && (forall k :: k in s.handlings && k != name ==> t.handlings[k] == s.handlings[k])
            && OnlyNode(s, t, nh.selected)
            && (nh.scaling == 0 ==>
                  t.handlings[name] == nh.(phase := HandleCompleted) && t.machines == s.machines)
            && (nh.scaling != 0 && nh.selected !in s.machines ==>
                  t.handlings[name] == nh.(phase := HandleFailed))
            && (nh.scaling != 0 && nh.selected in s.machines ==>
                  var m, after := s.machines[nh.selected], t.machines[nh.selected];
                  match outcome
                  case Success =>
                    && t.handlings[name] == nh.(phase := HandleCompleted)
                    && (if nh.scaling > 0 then IsOnAgain(m, after) else IsOff(m, after))
                  case Failure(switched, cordoned) =>
                    && t.handlings[name] == nh.(phase := HandleFailed)
                    && (switched ==> after.ready == (nh.scaling > 0))
                    && (!switched ==> after.ready == m.ready)
                    && after == m.(ready := after.ready, unschedulable := cordoned))
  {
  }

  /** A handling starts unless another one of its configuration runs; one that has acted stays as it is. */
  lemma {:induction false} HandleStarts(s: State, name: string, outcome: Outcome)
    requires name in s.handlings && s.handlings[name].phase != HandleRunning
    ensures var nh, t := s.handlings[name], ReconcileHandling(s, name, outcome);
            var held := exists k :: k in s.handlings && k != name && s.handlings[k].config == nh.config
                                    && s.handlings[k].phase == HandleRunning;
            t == if nh.phase == HandleNew && !held
                 then s.(handlings := s.handlings[name := nh.(phase := HandleRunning)]) else s
  {
  }

  // ---------------------------------------------------------------- power cycles over runs

  /** The step ends a handling that switched the node on. */
  ghost predicate SwitchesOn(s: State, step: Step, node: string) {
    && step.Handle? && step.outcome.Success? && step.name in s.handlings
    && s.handlings[step.name].phase == HandleRunning && s.handlings[step.name].scaling > 0
    && s.handlings[step.name].selected == node
  }

  ghost function TimesSwitchedOn(s: State, b: Bounds, run: seq<Step>, node: string, n: nat): nat
    requires n <= |run|
  {
    if n == 0 then 0
    else TimesSwitchedOn(s, b, run, node, n - 1)
         + if SwitchesOn(After(s, b, run, n - 1), run[n - 1], node) then 1 else 0
  }

  lemma StepCounts(s: State, b: Bounds, step: Step, node: string)
    requires node in s.machines && (step.Annotate? ==> step.node != node)
    ensures var t := Next(s, b, step);
            && node in t.machines
            && t.machines[node].role == s.machines[node].role
            && t.machines[node].energyProfile == s.machines[node].energyProfile
            && PowerCycles(t.machines[node])
               == PowerCycles(s.machines[node]) + if SwitchesOn(s, step, node) then 1 else 0
  {
    if step.Configure? && step.name in s.configs && s.configs[step.name].phase == Stable {
      StableStep(s, step.name);
    }
    hide ForecastStep, ReactiveStep, CreateNodeSelecting, SelectingsOf, HandlingsOf, CountedNodes, ActiveWorkers;
  }

  /** In every run: until someone writes its annotations, a node has been switched on as often as it had
      been at the start and its handlings have succeeded since. */
  lemma {:induction false} PowerCyclesAreCounted(s: State, b: Bounds, run: seq<Step>, node: string, n: nat)
    requires n <= |run| && node in s.machines
    requires forall i :: 0 <= i < n && run[i].Annotate? ==> run[i].node != node
    ensures var t := After(s, b, run, n);
            && node in t.machines
            && t.machines[node].role == s.machines[node].role
            && t.machines[node].energyProfile == s.machines[node].energyProfile
            && PowerCycles(t.machines[node])
               == PowerCycles(s.machines[node]) + TimesSwitchedOn(s, b, run, node, n)
  {
    hide Next, PowerCycles, SwitchesOn;
    if n > 0 {
      PowerCyclesAreCounted(s, b, run, node, n - 1);
      StepCounts(After(s, b, run, n - 1), b, run[n - 1], node);
    }
  }
}
