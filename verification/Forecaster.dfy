/** The forecaster as it runs: an object whose fields the step methods update, and the endless loop
    over ticks. Each method takes exactly the step of the specification. */
module Forecaster {
  import opened Options
  import opened Scaling

  class ScalingState {
    var previousScalingLabel: Option<int>
    var scalingLabelCount: nat
    var idleSince: Option<real>
    var reactiveInFlight: bool
    var scaleDownBlockedUntil: real
    var nextForecastAt: real
    ghost var log: seq<Event>

    ghost function View(): World
      reads this
    {
      World(Shared(previousScalingLabel, scalingLabelCount, idleSince, reactiveInFlight, scaleDownBlockedUntil),
            nextForecastAt, log)
    }

    constructor (now: real)
      ensures View() == Initial(now)
    {
      previousScalingLabel, scalingLabelCount := None, 0;
      idleSince := Some(now);
      reactiveInFlight := false;
      scaleDownBlockedUntil, nextForecastAt := 0.0, 0.0;
      log := [];
    }

    method TrackScalingProgress(params: Params, inProgress: bool, now: real)
      modifies this
      ensures View() == TrackProgress(old(View()), params, inProgress, now)
    {
      if inProgress {
        idleSince := None;
        return;
      }
      if idleSince == None {
        log := log + [Ended(now, reactiveInFlight, params.cooldown)];
        idleSince := Some(now);
        if reactiveInFlight {
          reactiveInFlight := false;
          scaleDownBlockedUntil := now + params.cooldown;
        }
      }
    }

    /** The waiting pods that have waited too long. */
    static method Overdue(ages: seq<real>, limit: real) returns (overdue: seq<real>)
      ensures overdue == [] <==> !HasOverdue(ages, limit)
    {
      overdue := [];
      for i := 0 to |ages|
        invariant overdue == [] <==> forall j :: 0 <= j < i ==> ages[j] < limit
      {
        if ages[i] >= limit { overdue := overdue + [ages[i]]; }
      }
    }

    method ReactiveStep(params: Params, pending: seq<real>, now: real, activeWorkers: int, createSucceeds: bool)
      modifies this
      ensures View() == React(old(View()), params, pending, now, activeWorkers, createSucceeds)
    {
      if idleSince == None { return; }
      if now - idleSince.value < params.grace { return; }
      var overdue := Overdue(pending, params.overdueAfter);
      if overdue == [] { return; }
      var required := activeWorkers + 1;
      if required > params.maxNodes { return; }
      if createSucceeds {
        log := log + [ReactiveCreated(now, params.grace, pending, params.overdueAfter, activeWorkers, params.maxNodes)];
        idleSince := None;
        reactiveInFlight := true;
        previousScalingLabel := None;
        scalingLabelCount := 0;
      }
    }

    method ScaleDownVeto(pending: Option<seq<real>>, now: real) returns (vetoed: bool)
      ensures vetoed <==> IsVetoed(View().s, pending, now)
    {
      if pending == None { return true; }
      if pending.value != [] { return true; }
      var remaining := scaleDownBlockedUntil - now;
      return remaining > 0.0;
    }

    method ForecastStep(params: Params, pending: Option<seq<real>>, scalingLabel: Option<int>, activeWorkers: int,
                        now: real,
                        createSucceeds: bool)
      modifies this
      ensures View() == ForecastCycle(old(View()), params, pending, scalingLabel, activeWorkers, now, createSucceeds)
    {
      if scalingLabel == previousScalingLabel {
        scalingLabelCount := scalingLabelCount + 1;
      } else {
        scalingLabelCount := 1;
        previousScalingLabel := scalingLabel;
      }
      log := log + [Vote(scalingLabel)];
      if scalingLabel == None || scalingLabel.value == 0 || scalingLabelCount < params.cycles { return; }
      if scalingLabel.value < 0 {
        var vetoed := ScaleDownVeto(pending, now);
        if vetoed { return; }
      }
      var required := activeWorkers + scalingLabel.value;
      if required >= params.minNodes && required <= params.maxNodes {
        log := log + [Attempt(scalingLabel.value, params.cycles, now, createSucceeds, reactiveInFlight, pending,
                              activeWorkers, params.minNodes, params.maxNodes)];
        if createSucceeds { idleSince := None; }
        scalingLabelCount := 0;
      }
    }

    method RunTick(t: Tick)
      modifies this
      ensures View() == Next(old(View()), t)
    {
      if !t.params.enabled { return; }
      TrackScalingProgress(t.params, t.inProgress, t.trackedAt);
      var forecastDue := t.dueAt >= nextForecastAt;
      if t.params.qos && t.pending.Some? && t.pending.value != [] {
        ReactiveStep(t.params, t.pending.value, t.reactiveAt, t.reactiveWorkers, t.reactiveCreated);
      }
      if forecastDue {
        ForecastStep(t.params, t.pending, t.vote, t.forecastWorkers, t.forecastAt, t.forecastCreated);
        nextForecastAt := t.finishedAt + t.params.period;
      }
    }
  }

  /** The loop over the ticks of one run; its log is that of the specification, and every decision in it
      is justified. */
  method Run(start: real, ticks: seq<Tick>) returns (state: ScalingState)
    ensures fresh(state) && state.View() == After(start, ticks, |ticks|)
    ensures forall k :: 0 <= k < |state.log| ==> Justified(state.log, k, start)
    ensures state.reactiveInFlight ==> state.idleSince == None
  {
    state := new ScalingState(start);
    for i := 0 to |ticks|
      invariant fresh(state) && state.View() == After(start, ticks, i)
    {
      state.RunTick(ticks[i]);
    }
    EveryDecisionIsJustified(start, ticks, |ticks|);
  }
}
