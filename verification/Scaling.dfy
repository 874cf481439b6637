/** The forecaster's loop: the reactive path, the predictive path and the state they share, with a log
    of what was observed and decided. */
module Scaling {
  import opened Options

  /** Parameters read at the start of a tick; times in seconds. */
  datatype Params = Params(enabled: bool, qos: bool, minNodes: int, maxNodes: int, cycles: int, grace: real,
                           overdueAfter: real, cooldown: real, period: real)

  datatype Shared = Shared(previous: Option<int>, count: nat, idleSince: Option<real>, reactiveInFlight: bool,
                           blockedUntil: real)

  datatype Event =
    | Ended(at: real, reactive: bool, cooldown: real)  // no configuration is open any more
    // with the ages of the waiting pods and the number of workers it rests on
    | ReactiveCreated(at: real, grace: real, ages: seq<real>, limit: real, workers: int, maxNodes: int)
    | Vote(vote: Option<int>)
    // the forecast asks for a configuration, with the waiting pods and the number of workers it rests on
    | Attempt(change: int, cycles: int, at: real, created: bool, inFlight: bool,
              pending: Option<seq<real>>, workers: int, minNodes: int, maxNodes: int)

  datatype World = World(s: Shared, nextForecastAt: real, log: seq<Event>)

  /** What one tick reads: clock, open configurations, waiting pods (their ages; None when they cannot
      be listed), worker counts, the forecast's label, and whether a creation succeeds. */
  datatype Tick = Tick(
    params: Params, inProgress: bool, trackedAt: real, dueAt: real, pending: Option<seq<real>>,
    reactiveAt: real, reactiveWorkers: int, reactiveCreated: bool,
    vote: Option<int>, forecastWorkers: int, forecastAt: real, forecastCreated: bool, finishedAt: real)

  // ---------------------------------------------------------------- the steps

  function TrackProgress(w: World, p: Params, inProgress: bool, now: real): World {
    if inProgress then w.(s := w.s.(idleSince := None))
    else if w.s.idleSince.Some? then w
    else
      var until := if w.s.reactiveInFlight then now + p.cooldown else w.s.blockedUntil;
      w.(s := w.s.(idleSince := Some(now), reactiveInFlight := false, blockedUntil := until),
         log := w.log + [Ended(now, w.s.reactiveInFlight, p.cooldown)])
  }

  predicate HasOverdue(ages: seq<real>, limit: real) {
    exists i :: 0 <= i < |ages| && ages[i] >= limit
  }

  function React(w: World, p: Params, ages: seq<real>, now: real, workers: int, created: bool): World {
    if w.s.idleSince.None? || now - w.s.idleSince.value < p.grace || !HasOverdue(ages, p.overdueAfter)
       || workers + 1 > p.maxNodes || !created
    then w
    else w.(s := w.s.(idleSince := None, reactiveInFlight := true, previous := None, count := 0),
            log := w.log + [ReactiveCreated(now, p.grace, ages, p.overdueAfter, workers, p.maxNodes)])
  }

  predicate IsVetoed(s: Shared, pending: Option<seq<real>>, now: real) {
    pending.None? || pending.value != [] || s.blockedUntil - now > 0.0
  }

  function WithVote(w: World, vote: Option<int>): World {
    w.(s := w.s.(previous := vote, count := if vote == w.s.previous then w.s.count + 1 else 1),
       log := w.log + [Vote(vote)])
  }

  /** The forecast asks for a configuration after enough equal votes. */
  function WithAttempt(v: World, p: Params, pending: Option<seq<real>>, change: int, workers: int, now: real,
                       created: bool): World {
    v.(s := v.s.(count := 0, idleSince := if created then None else v.s.idleSince),
       log := v.log + [Attempt(change, p.cycles, now, created, v.s.reactiveInFlight, pending, workers, p.minNodes,
                               p.maxNodes)])
  }

  function ForecastCycle(w: World, p: Params, pending: Option<seq<real>>, vote: Option<int>, workers: int, now: real,
                         created: bool): World {
    var v := WithVote(w, vote);
    if vote.None? || vote.value == 0 || v.s.count < p.cycles then v
    else if vote.value < 0 && IsVetoed(v.s, pending, now) then v
    else if !(p.minNodes <= workers + vote.value <= p.maxNodes) then v
    else WithAttempt(v, p, pending, vote.value, workers, now, created)
  }

  function Reactive(w: World, t: Tick): World {
    if t.params.qos && t.pending.Some? && t.pending.value != []
    then React(w, t.params, t.pending.value, t.reactiveAt, t.reactiveWorkers, t.reactiveCreated)
    else w
  }

  function Predictive(w: World, t: Tick): World {
    if t.dueAt >= w.nextForecastAt
    then ForecastCycle(w, t.params, t.pending, t.vote, t.forecastWorkers, t.forecastAt, t.forecastCreated)
           .(nextForecastAt := t.finishedAt + t.params.period)
    else w
  }

  function Next(w: World, t: Tick): World {
    if !t.params.enabled then w
    else Predictive(Reactive(TrackProgress(w, t.params, t.inProgress, t.trackedAt), t), t)
  }

  function Initial(start: real): World {
    World(Shared(None, 0, Some(start), false, 0.0), 0.0, [])
  }

  function After(start: real, ticks: seq<Tick>, n: nat): World
    requires n <= |ticks|
  {
    if n == 0 then Initial(start) else Next(After(start, ticks, n - 1), ticks[n - 1])
  }

  // ---------------------------------------------------------------- reading the log

  /** The votes since the last creation or creation attempt. */
  function RecentVotes(log: seq<Event>): seq<Option<int>> {
    if log == [] then []
    else
      var rest := log[..|log| - 1];
      match log[|log| - 1]
      case Ended(_, _, _) => RecentVotes(rest)
      case Vote(vote) => RecentVotes(rest) + [vote]
      case _ => []
  }

  /** How many votes at the end agree. */
  function Agreeing(votes: seq<Option<int>>): nat {
    if |votes| <= 1 then |votes|
    else if votes[|votes| - 2] == votes[|votes| - 1] then Agreeing(votes[..|votes| - 1]) + 1
    else 1
  }

  /** When a configuration was last seen to end. */
  function LastEnd(log: seq<Event>, start: real): real {
    if log == [] then start
    else if log[|log| - 1].Ended? then log[|log| - 1].at
    else LastEnd(log[..|log| - 1], start)
  }

  /** Until when the reactive scale-ups that were seen to end forbid to shrink. */
  function BlockedUntil(log: seq<Event>): real {
    if log == [] then 0.0
    else
      var last := log[|log| - 1];
      if last.Ended? && last.reactive then last.at + last.cooldown else BlockedUntil(log[..|log| - 1])
  }

  /** A reactive scale-up was created, and none was seen to end since. */
  predicate InFlight(log: seq<Event>) {
    log != [] && !log[|log| - 1].Ended? && (log[|log| - 1].ReactiveCreated? || InFlight(log[..|log| - 1]))
  }

  predicate IsCreation(e: Event) {
    e.ReactiveCreated? || (e.Attempt? && e.created)
  }

  /** Nothing was created since. */
  predicate Quiet(log: seq<Event>) {
    log == [] || log[|log| - 1].Ended? || (!IsCreation(log[|log| - 1]) && Quiet(log[..|log| - 1]))
  }

  /** The last n votes are all v. */
  ghost predicate Unanimous(votes: seq<Option<int>>, n: int, v: Option<int>) {
    && 1 <= |votes| && n <= |votes| && votes[|votes| - 1] == v
    && forall i :: 0 <= i && |votes| - n <= i < |votes| ==> votes[i] == v
  }

  lemma {:induction false} AgreeingMeans(votes: seq<Option<int>>, n: int)
    requires votes != [] && n <= Agreeing(votes)
    ensures Unanimous(votes, n, votes[|votes| - 1])
    ensures Agreeing(votes) <= |votes|
  {
    if |votes| > 1 && votes[|votes| - 2] == votes[|votes| - 1] {
      AgreeingMeans(votes[..|votes| - 1], n - 1);
    }
  }

  /** What every event of the log rests on. */
  ghost predicate Justified(log: seq<Event>, k: nat, start: real)
    requires k < |log|
  {
    var before := log[..k];
    match log[k]
    case Attempt(change, cycles, at, _, inFlight, pending, workers, minNodes, maxNodes) =>
      && change != 0 && Unanimous(RecentVotes(before), cycles, Some(change))
      && minNodes <= workers + change <= maxNodes
      && (change < 0 ==> pending == Some([]) && BlockedUntil(before) <= at)
      && inFlight == InFlight(before)
    case ReactiveCreated(at, grace, ages, limit, workers, maxNodes) =>
      && at >= LastEnd(before, start) + grace && Quiet(before)
      && (exists i :: 0 <= i < |ages| && ages[i] >= limit) && workers + 1 <= maxNodes
    case Ended(_, reactive, _) => reactive == InFlight(before)
    case Vote(_) => true
  }

  ghost predicate Inv(w: World, start: real) {
    && (w.s.reactiveInFlight ==> w.s.idleSince.None?)
    && w.s.count == Agreeing(RecentVotes(w.log))
    && (RecentVotes(w.log) != [] ==> w.s.previous == RecentVotes(w.log)[|RecentVotes(w.log)| - 1])
    && (w.s.idleSince.Some? ==> w.s.idleSince.value == LastEnd(w.log, start) && Quiet(w.log))
    && w.s.blockedUntil == BlockedUntil(w.log) && w.s.reactiveInFlight == InFlight(w.log)
    && (forall k :: 0 <= k < |w.log| ==> Justified(w.log, k, start))
  }

  lemma Extended(log: seq<Event>, e: Event, start: real)
    ensures RecentVotes(log + [e])
         == match e case Ended(_, _, _) => RecentVotes(log) case Vote(v) => RecentVotes(log) + [v] case _ => []
    ensures BlockedUntil(log + [e]) == if e.Ended? && e.reactive then e.at + e.cooldown else BlockedUntil(log)
    ensures InFlight(log + [e]) <==> !e.Ended? && (e.ReactiveCreated? || InFlight(log))
    ensures LastEnd(log + [e], start) == if e.Ended? then e.at else LastEnd(log, start)
    ensures Quiet(log + [e]) <==> e.Ended? || (!IsCreation(e) && Quiet(log))
    ensures (forall k :: 0 <= k < |log| ==> Justified(log, k, start)) && Justified(log + [e], |log|, start)
        ==> (forall k :: 0 <= k < |log + [e]| ==> Justified(log + [e], k, start))
  {
    assert (log + [e])[..|log|] == log;
    forall k | 0 <= k < |log| && Justified(log, k, start) ensures Justified(log + [e], k, start) {
      assert (log + [e])[..k] == log[..k];
    }
  }

  lemma TrackKeeps(w: World, p: Params, inProgress: bool, now: real, start: real)
    requires Inv(w, start)
    ensures Inv(TrackProgress(w, p, inProgress, now), start)
  {
    var e := Ended(now, w.s.reactiveInFlight, p.cooldown);
    Extended(w.log, e, start);
    assert (w.log + [e])[..|w.log|] == w.log;
    hide RecentVotes, LastEnd, Quiet, Agreeing, BlockedUntil, InFlight;
  }

  lemma ReactKeeps(w: World, t: Tick, start: real)
    requires Inv(w, start)
    ensures Inv(Reactive(w, t), start)
  {
    if Reactive(w, t) != w {
      var e := ReactiveCreated(t.reactiveAt, t.params.grace, t.pending.value, t.params.overdueAfter, t.reactiveWorkers,
                               t.params.maxNodes);
      Extended(w.log, e, start);
      assert (w.log + [e])[..|w.log|] == w.log;
      hide RecentVotes, LastEnd, Quiet, BlockedUntil, InFlight;
    }
  }

  lemma AgreeingStep(votes: seq<Option<int>>, v: Option<int>)
    ensures Agreeing(votes + [v]) == if votes != [] && votes[|votes| - 1] == v then Agreeing(votes) + 1 else 1
  {
    assert (votes + [v])[..|votes|] == votes;
  }

  lemma VoteKeeps(w: World, vote: Option<int>, start: real)
    requires Inv(w, start)
    ensures Inv(WithVote(w, vote), start)
  {
    Extended(w.log, Vote(vote), start);
    AgreeingStep(RecentVotes(w.log), vote);
    assert Justified(w.log + [Vote(vote)], |w.log|, start);
    hide RecentVotes, LastEnd, Quiet, Agreeing, Justified, BlockedUntil, InFlight;
  }

  lemma AttemptKeeps(v: World, p: Params, pending: Option<seq<real>>, change: int, workers: int, now: real,
                     created: bool, start: real)
    requires Inv(v, start) && RecentVotes(v.log) != [] && v.s.previous == Some(change) && change != 0
             && v.s.count >= p.cycles && p.minNodes <= workers + change <= p.maxNodes
    requires change < 0 ==> pending == Some([]) && v.s.blockedUntil <= now
    ensures Inv(WithAttempt(v, p, pending, change, workers, now, created), start)
  {
    var e := Attempt(change, p.cycles, now, created, v.s.reactiveInFlight, pending, workers, p.minNodes, p.maxNodes);
    Extended(v.log, e, start);
    AgreeingMeans(RecentVotes(v.log), p.cycles);
    assert (v.log + [e])[..|v.log|] == v.log;
    hide RecentVotes, LastEnd, Quiet, Unanimous, BlockedUntil, InFlight;
  }

  lemma CycleKeeps(w: World, t: Tick, start: real)
    requires Inv(w, start)
    ensures Inv(ForecastCycle(w, t.params, t.pending, t.vote, t.forecastWorkers, t.forecastAt, t.forecastCreated),
        start)
  {
    var v := WithVote(w, t.vote);
    VoteKeeps(w, t.vote, start);
    Extended(w.log, Vote(t.vote), start);
    assert RecentVotes(v.log) != [] && v.s.previous == t.vote;
    hide Inv, RecentVotes, WithVote, WithAttempt;
    if t.vote.Some? && t.vote.value != 0 && v.s.count >= t.params.cycles
       && t.params.minNodes <= t.forecastWorkers + t.vote.value <= t.params.maxNodes
       && (t.vote.value < 0 ==> t.pending == Some([]) && v.s.blockedUntil <= t.forecastAt) {
      AttemptKeeps(v, t.params, t.pending, t.vote.value, t.forecastWorkers, t.forecastAt, t.forecastCreated, start);
    }
  }

  lemma TimerKeeps(w: World, at: real, start: real)
    requires Inv(w, start)
    ensures Inv(w.(nextForecastAt := at), start)
  {
    hide RecentVotes, LastEnd, Quiet, Agreeing, Justified, BlockedUntil, InFlight;
  }

  lemma PredictKeeps(w: World, t: Tick, start: real)
    requires Inv(w, start)
    ensures Inv(Predictive(w, t), start)
  {
    CycleKeeps(w, t, start);
    hide Inv, ForecastCycle;
    if t.dueAt >= w.nextForecastAt {
      var v := ForecastCycle(w, t.params, t.pending, t.vote, t.forecastWorkers, t.forecastAt, t.forecastCreated);
      TimerKeeps(v, t.finishedAt + t.params.period, start);
    }
  }

  lemma NextKeeps(w: World, t: Tick, start: real)
    requires Inv(w, start)
    ensures Inv(Next(w, t), start)
  {
    hide Inv, TrackProgress, Reactive, Predictive;
    var u := TrackProgress(w, t.params, t.inProgress, t.trackedAt);
    TrackKeeps(w, t.params, t.inProgress, t.trackedAt, start);
    ReactKeeps(u, t, start);
    PredictKeeps(Reactive(u, t), t, start);
  }

  lemma {:induction false} EveryRunKeepsInv(start: real, ticks: seq<Tick>, n: nat)
    requires n <= |ticks|
    ensures Inv(After(start, ticks, n), start)
  {
    if n > 0 {
      EveryRunKeepsInv(start, ticks, n - 1);
      NextKeeps(After(start, ticks, n - 1), ticks[n - 1], start);
    }
  }

  /** In every run: a reactive scale-up in flight means that no idle time is known; a forecast creation
      was preceded by the required number of equal, non-zero votes with no other creation or attempt
      among them, asks for a count within bounds, and shrinks the cluster only with no pod waiting and no
      cooldown running; a reactive creation came at least the grace after the last end seen, with nothing
      created in between, for a pod that waited too long and within the upper bound; and an end is taken
      for that of a reactive scale-up exactly when one was created since the end before. */
  lemma {:induction false} EveryDecisionIsJustified(start: real, ticks: seq<Tick>, n: nat)
    requires n <= |ticks|
    ensures var w := After(start, ticks, n);
            && (w.s.reactiveInFlight ==> w.s.idleSince.None?)
            && forall k :: 0 <= k < |w.log| ==> Justified(w.log, k, start)
  {
    EveryRunKeepsInv(start, ticks, n);
    hide Justified;
  }
}
