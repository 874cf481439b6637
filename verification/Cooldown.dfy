/** The cooldown after a reactive scale-up: exactly when a forecast scale-down respects it. */
module Cooldown {
  import opened Options
  import opened Scaling

  /** After event j a configuration was seen to end, and by the given time the cooldown was over. */
  ghost predicate Cleared(log: seq<Event>, j: int, time: real, cooldown: real) {
    exists m :: j < m < |log| && 0 <= m && log[m].Ended? && log[m].at + cooldown <= time
  }

  ghost predicate Unended(log: seq<Event>, j: int) {
    forall m :: j < m < |log| && 0 <= m ==> !log[m].Ended?
  }

  ghost predicate IsForecastScaleDown(e: Event) {
    e.Attempt? && e.created && e.change < 0
  }

  /** Every reactive scale-up before event k was seen to end at least the cooldown earlier. */
  ghost predicate Cooled(log: seq<Event>, k: nat, cooldown: real)
    requires k < |log| && log[k].Attempt?
  {
    forall j :: 0 <= j < k && log[j].ReactiveCreated? ==> Cleared(log[..k], j, log[k].at, cooldown)
  }

  ghost predicate EndsBy(log: seq<Event>, now: real) {
    forall m :: 0 <= m < |log| && log[m].Ended? ==> log[m].at <= now
  }

  /** Reactive scale-ups are cleared by the time scale-downs are unblocked, or are still in flight. */
  ghost predicate Accounted(w: World, cooldown: real) {
    && (forall j :: 0 <= j < |w.log| && w.log[j].ReactiveCreated? ==>
          Cleared(w.log, j, w.s.blockedUntil, cooldown) || (w.s.reactiveInFlight && Unended(w.log, j)))
    && (w.s.reactiveInFlight ==> exists j :: 0 <= j < |w.log| && w.log[j].ReactiveCreated? && Unended(w.log, j))
  }

  ghost predicate Exact(log: seq<Event>, cooldown: real) {
    forall k :: 0 <= k < |log| && IsForecastScaleDown(log[k]) ==> (Cooled(log, k, cooldown) <==> !log[k].inFlight)
  }

  ghost predicate CoolInv(w: World, cooldown: real, now: real) {
    EndsBy(w.log, now) && Accounted(w, cooldown) && Exact(w.log, cooldown)
  }

  lemma ClearedExtends(log: seq<Event>, e: Event, j: int, time: real, later: real, cooldown: real)
    requires Cleared(log, j, time, cooldown) && time <= later
    ensures Cleared(log + [e], j, later, cooldown)
  {
    var m :| j < m < |log| && 0 <= m && log[m].Ended? && log[m].at + cooldown <= time;
    assert (log + [e])[m] == log[m];
  }

  lemma UnendedExtends(log: seq<Event>, e: Event, j: int)
    requires Unended(log, j) && !e.Ended?
    ensures Unended(log + [e], j)
  {
  }

  /** Only the last event is new. */
  lemma ExactExtends(log: seq<Event>, e: Event, cooldown: real)
    requires Exact(log, cooldown)
    requires IsForecastScaleDown(e) ==> (Cooled(log + [e], |log|, cooldown) <==> !e.inFlight)
    ensures Exact(log + [e], cooldown)
  {
    var longer := log + [e];
    forall k | 0 <= k < |longer| && IsForecastScaleDown(longer[k])
      ensures Cooled(longer, k, cooldown) <==> !longer[k].inFlight
    {
      if k < |log| {
        assert longer[..k] == log[..k] && longer[k] == log[k];
        assert forall j :: 0 <= j < k ==> longer[j] == log[j];
        assert Cooled(longer, k, cooldown) <==> Cooled(log, k, cooldown);
      }
    }
  }

  lemma TrackCools(w: World, p: Params, inProgress: bool, before: real, now: real)
    requires CoolInv(w, p.cooldown, before) && before <= now
    ensures CoolInv(TrackProgress(w, p, inProgress, now), p.cooldown, now)
  {
    var t := TrackProgress(w, p, inProgress, now);
    if t.log != w.log {
      var e := Ended(now, w.s.reactiveInFlight, p.cooldown);
      ExactExtends(w.log, e, p.cooldown);
      forall j | 0 <= j < |t.log| && t.log[j].ReactiveCreated?
        ensures Cleared(t.log, j, t.s.blockedUntil, p.cooldown)
      {
        EndClears(w, p, now, j);
      }
    }
  }

  /** An end seen now clears everything in flight, and what was cleared stays so. */
  lemma EndClears(w: World, p: Params, now: real, j: nat)
    requires EndsBy(w.log, now) && Accounted(w, p.cooldown)
    requires j < |w.log| && w.log[j].ReactiveCreated?
    ensures Cleared(w.log + [Ended(now, w.s.reactiveInFlight, p.cooldown)], j,
                    if w.s.reactiveInFlight then now + p.cooldown else w.s.blockedUntil, p.cooldown)
  {
    var e := Ended(now, w.s.reactiveInFlight, p.cooldown);
    if w.s.reactiveInFlight {
      assert (w.log + [e])[|w.log|] == e;
    } else {
      ClearedExtends(w.log, e, j, w.s.blockedUntil, w.s.blockedUntil, p.cooldown);
    }
  }

  /** An event that is no end leaves the account as it is. */
  lemma OtherEvent(w: World, v: World, e: Event, cooldown: real, now: real)
    requires CoolInv(w, cooldown, now) && v.log == w.log + [e] && !e.Ended? && !e.ReactiveCreated?
    requires v.s.reactiveInFlight == w.s.reactiveInFlight && v.s.blockedUntil == w.s.blockedUntil
    requires IsForecastScaleDown(e) ==> e.inFlight == w.s.reactiveInFlight && e.at >= w.s.blockedUntil
    ensures CoolInv(v, cooldown, now)
  {
    forall j | 0 <= j < |v.log| && v.log[j].ReactiveCreated?
      ensures Cleared(v.log, j, v.s.blockedUntil, cooldown) || (v.s.reactiveInFlight && Unended(v.log, j))
    {
      if Cleared(w.log, j, w.s.blockedUntil, cooldown) {
        ClearedExtends(w.log, e, j, w.s.blockedUntil, v.s.blockedUntil, cooldown);
      } else {
        UnendedExtends(w.log, e, j);
      }
    }
    if w.s.reactiveInFlight {
      var j :| 0 <= j < |w.log| && w.log[j].ReactiveCreated? && Unended(w.log, j);
      UnendedExtends(w.log, e, j);
      assert v.log[j].ReactiveCreated?;
    }
    if IsForecastScaleDown(e) { NewScaleDown(w, e, cooldown); }
    ExactExtends(w.log, e, cooldown);
  }

  lemma NewScaleDown(w: World, e: Event, cooldown: real)
    requires Accounted(w, cooldown) && IsForecastScaleDown(e)
    requires e.inFlight == w.s.reactiveInFlight && e.at >= w.s.blockedUntil
    ensures Cooled(w.log + [e], |w.log|, cooldown) <==> !e.inFlight
  {
    var longer := w.log + [e];
    assert longer[..|w.log|] == w.log;
    if e.inFlight {
      var j :| 0 <= j < |w.log| && w.log[j].ReactiveCreated? && Unended(w.log, j);
      assert longer[j].ReactiveCreated? && !Cleared(w.log, j, e.at, cooldown);
    } else {
      forall j | 0 <= j < |w.log| && longer[j].ReactiveCreated? ensures Cleared(w.log, j, e.at, cooldown) {
        assert longer[j] == w.log[j];
        assert Cleared(w.log, j, w.s.blockedUntil, cooldown);
      }
    }
  }

  lemma ReactCools(w: World, t: Tick, cooldown: real, now: real)
    requires CoolInv(w, cooldown, now)
    ensures CoolInv(Reactive(w, t), cooldown, now)
  {
    var v := Reactive(w, t);
    if v.log != w.log {
      var e := v.log[|v.log| - 1];
      assert v.log == w.log + [e];
      hide HasOverdue;
      ExactExtends(w.log, e, cooldown);
      forall j | 0 <= j < |v.log| && v.log[j].ReactiveCreated?
        ensures Cleared(v.log, j, v.s.blockedUntil, cooldown) || Unended(v.log, j)
      {
        if j < |w.log| {
          assert v.log[j] == w.log[j];
          if Cleared(w.log, j, w.s.blockedUntil, cooldown) {
            ClearedExtends(w.log, e, j, w.s.blockedUntil, w.s.blockedUntil, cooldown);
          } else {
            UnendedExtends(w.log, e, j);
          }
        }
      }
      assert v.log[|w.log|] == e && Unended(v.log, |w.log|);
    }
  }

  /** What the predictive path adds to the log. */
  lemma PredictLogs(w: World, t: Tick)
    ensures var u, v := WithVote(w, t.vote), Predictive(w, t);
            && v.s.reactiveInFlight == w.s.reactiveInFlight && v.s.blockedUntil == w.s.blockedUntil
            && (v.log == w.log || v.log == u.log
                || (t.vote.Some? && (t.vote.value < 0 ==> t.forecastAt >= w.s.blockedUntil)
                    && v.log == u.log + [Attempt(t.vote.value, t.params.cycles, t.forecastAt, t.forecastCreated,
                                                 w.s.reactiveInFlight, t.pending, t.forecastWorkers,
                                                 t.params.minNodes, t.params.maxNodes)]))
  {
  }

  lemma PredictCools(w: World, t: Tick, cooldown: real, now: real)
    requires CoolInv(w, cooldown, now)
    ensures CoolInv(Predictive(w, t), cooldown, now)
  {
    var u, v := WithVote(w, t.vote), Predictive(w, t);
    PredictLogs(w, t);
    hide Predictive, EndsBy, Accounted, Exact;
    if v.log == w.log {
      SameAccount(w, v, cooldown, now);
    } else {
      OtherEvent(w, u, Vote(t.vote), cooldown, now);
      if v.log == u.log { SameAccount(u, v, cooldown, now); } else { OtherEvent(u, v, v.log[|u.log|], cooldown, now); }
    }
  }

  lemma SameAccount(w: World, v: World, cooldown: real, now: real)
    requires v.s.reactiveInFlight == w.s.reactiveInFlight && v.s.blockedUntil == w.s.blockedUntil && v.log == w.log
    requires CoolInv(w, cooldown, now)
    ensures CoolInv(v, cooldown, now)
  {
  }

  // ---------------------------------------------------------------- every run

  /** The clock does not run backwards. */
  ghost predicate InOrder(start: real, ticks: seq<Tick>) {
    && (forall n :: 0 <= n < |ticks| ==> ticks[n].trackedAt <= ticks[n].finishedAt)
    && (ticks != [] ==> start <= ticks[0].trackedAt)
    && (forall n :: 0 < n < |ticks| ==> ticks[n - 1].finishedAt <= ticks[n].trackedAt)
  }

  ghost predicate SameCooldown(ticks: seq<Tick>, cooldown: real) {
    forall n :: 0 <= n < |ticks| ==> ticks[n].params.cooldown == cooldown
  }

  lemma NextCools(w: World, t: Tick, before: real)
    requires CoolInv(w, t.params.cooldown, before) && before <= t.trackedAt <= t.finishedAt
    ensures CoolInv(Next(w, t), t.params.cooldown, t.finishedAt)
  {
    Later(w, t.params.cooldown, before, t.finishedAt);
    hide CoolInv, TrackProgress, Reactive, Predictive;
    var u := TrackProgress(w, t.params, t.inProgress, t.trackedAt);
    TrackCools(w, t.params, t.inProgress, before, t.trackedAt);
    ReactCools(u, t, t.params.cooldown, t.trackedAt);
    PredictCools(Reactive(u, t), t, t.params.cooldown, t.trackedAt);
    Later(Predictive(Reactive(u, t), t), t.params.cooldown, t.trackedAt, t.finishedAt);
  }

  lemma Later(w: World, cooldown: real, before: real, now: real)
    requires CoolInv(w, cooldown, before) && before <= now
    ensures CoolInv(w, cooldown, now)
  {
  }

  lemma {:induction false} EveryRunCools(start: real, ticks: seq<Tick>, n: nat, cooldown: real)
    requires InOrder(start, ticks) && SameCooldown(ticks, cooldown) && n <= |ticks|
    ensures CoolInv(After(start, ticks, n), cooldown, if n == 0 then start else ticks[n - 1].finishedAt)
  {
    if n > 0 {
      EveryRunCools(start, ticks, n - 1, cooldown);
      hide CoolInv, Next;
      NextCools(After(start, ticks, n - 1), ticks[n - 1], if n == 1 then start else ticks[n - 2].finishedAt);
    }
  }

  /** In every run a forecast scale-down respects the cooldown exactly when no reactive scale-up was
      still in flight when it was created. */
  lemma {:induction false} CooldownKeptIff(start: real, ticks: seq<Tick>, n: nat, cooldown: real, k: nat)
    requires InOrder(start, ticks) && SameCooldown(ticks, cooldown) && n <= |ticks|
    requires var log := After(start, ticks, n).log; k < |log| && IsForecastScaleDown(log[k])
    ensures var log := After(start, ticks, n).log; Cooled(log, k, cooldown) <==> !log[k].inFlight
  {
    EveryRunCools(start, ticks, n, cooldown);
    hide Cooled;
  }

  // ---------------------------------------------------------------- configurations that move between ticks only

  /** What was in progress at the start of the tick, or was created by its reactive path, still blocks
      a creation by the forecast. */
  ghost predicate IsSteady(w: World, t: Tick) {
    var u := TrackProgress(w, t.params, t.inProgress, t.trackedAt);
    (t.inProgress || Reactive(u, t) != u) ==> !t.forecastCreated
  }

  ghost predicate NeverInFlight(log: seq<Event>) {
    forall k :: 0 <= k < |log| && log[k].Attempt? && log[k].created ==> !log[k].inFlight
  }

  lemma SteadyNext(w: World, t: Tick, start: real)
    requires Inv(w, start) && NeverInFlight(w.log) && IsSteady(w, t)
    ensures NeverInFlight(Next(w, t).log)
  {
    var u := TrackProgress(w, t.params, t.inProgress, t.trackedAt);
    var r := Reactive(u, t);
    PredictLogs(r, t);
    hide Predictive, RecentVotes, LastEnd, Quiet, Agreeing, Justified, HasOverdue;
    assert t.forecastCreated ==> !r.s.reactiveInFlight;
    assert NeverInFlight(u.log);
    assert NeverInFlight(r.log);
  }

  lemma {:induction false} SteadyRun(start: real, ticks: seq<Tick>, n: nat)
    requires n <= |ticks| && forall i :: 0 <= i < n ==> IsSteady(After(start, ticks, i), ticks[i])
    ensures NeverInFlight(After(start, ticks, n).log)
  {
    hide Next;
    if n > 0 {
      SteadyRun(start, ticks, n - 1);
      EveryRunKeepsInv(start, ticks, n - 1);
      SteadyNext(After(start, ticks, n - 1), ticks[n - 1], start);
    }
  }

  /** When configurations change phase between ticks only, no forecast scale-down comes within the
      cooldown of a reactive scale-up. */
  lemma {:induction false} SteadyRunsKeepCooldown(start: real, ticks: seq<Tick>, n: nat, cooldown: real, k: nat)
    requires InOrder(start, ticks) && SameCooldown(ticks, cooldown) && n <= |ticks|
    requires forall i :: 0 <= i < n ==> IsSteady(After(start, ticks, i), ticks[i])
    requires var log := After(start, ticks, n).log; k < |log| && IsForecastScaleDown(log[k])
    ensures Cooled(After(start, ticks, n).log, k, cooldown)
  {
    SteadyRun(start, ticks, n);
    CooldownKeptIff(start, ticks, n, cooldown, k);
  }

  function ExampleParams(): Params {
    Params(true, true, 1, 5, 1, 30.0, 90.0, 600.0, 1000.0)
  }

  /** A pod waits: the reactive path creates a configuration. */
  lemma FirstTick(t: Tick)
    requires t == Tick(ExampleParams(), false, 100.0, 100.0, Some([95.0]), 100.0, 2, true, Some(0), 2, 100.0, false,
        100.0)
    ensures var w := Next(Initial(0.0), t);
            && w.log == [ReactiveCreated(100.0, 30.0, [95.0], 90.0, 2, 5), Vote(Some(0))]
            && w.s.reactiveInFlight && w.s.blockedUntil == 0.0 && w.nextForecastAt == 1100.0
  {
    assert HasOverdue([95.0], 90.0) by { assert [95.0][0] >= 90.0; }
    hide HasOverdue;
  }

  /** It is in progress when the tick starts, and over when the forecast asks. */
  lemma SecondTick(w: World, t: Tick)
    requires t == Tick(ExampleParams(), true, 1200.0, 1200.0, Some([]), 1200.0, 3, false, Some(-1), 3, 1201.0, true,
        1201.0)
    requires w.s.reactiveInFlight && w.s.blockedUntil == 0.0 && w.nextForecastAt == 1100.0
    ensures Next(w, t).log == w.log + [Vote(Some(-1))] + [Attempt(-1, 1, 1201.0, true, true, Some([]), 3, 1, 5)]
  {
    hide HasOverdue;
  }

  /** A configuration that ends in the middle of a tick lets the forecast shrink the cluster with no
      cooldown at all. */
  lemma {:induction false} CooldownCanBeSkipped()
    ensures exists ticks: seq<Tick> ::
              && InOrder(0.0, ticks) && SameCooldown(ticks, 600.0)
              && var log := After(0.0, ticks, |ticks|).log;
                 |log| > 0 && IsForecastScaleDown(log[|log| - 1]) && !Cooled(log, |log| - 1, 600.0)
  {
    var p := ExampleParams();
    var t0 := Tick(p, false, 100.0, 100.0, Some([95.0]), 100.0, 2, true, Some(0), 2, 100.0, false, 100.0);
    var t1 := Tick(p, true, 1200.0, 1200.0, Some([]), 1200.0, 3, false, Some(-1), 3, 1201.0, true, 1201.0);
    var ticks := [t0, t1];
    FirstTick(t0);
    SecondTick(Next(Initial(0.0), t0), t1);
    assert InOrder(0.0, ticks) && SameCooldown(ticks, 600.0);
    hide Next, InOrder, SameCooldown, Cooled, Initial;
    AfterTwo(0.0, ticks);
    var log := After(0.0, ticks, 2).log;
    assert |log| == 4 && log[3] == Attempt(-1, 1, 1201.0, true, true, Some([]), 3, 1, 5);
    CooldownKeptIff(0.0, ticks, 2, 600.0, 3);
  }

  lemma AfterTwo(start: real, ticks: seq<Tick>)
    requires |ticks| == 2
    ensures After(start, ticks, 2) == Next(Next(Initial(start), ticks[0]), ticks[1])
  {
    hide Next;
    assert After(start, ticks, 0) == Initial(start);
    assert After(start, ticks, 1) == Next(Initial(start), ticks[0]);
  }
}
