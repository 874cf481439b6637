/** What every tick of every run adds to the log, read off the earlier log and the ticks alone. */
module Ticks {
  import opened Options
  import opened Scaling

  ghost function LogAfter(start: real, ticks: seq<Tick>, n: nat): seq<Event>
    requires n <= |ticks|
  {
    After(start, ticks, n).log
  }

  /** The last tick that was not switched off saw an open configuration, or something was created in it. */
  ghost predicate SeenOpen(start: real, ticks: seq<Tick>, n: nat)
    requires n <= |ticks|
  {
    && n > 0
    && if ticks[n - 1].params.enabled
       then ticks[n - 1].inProgress || CreatedSince(LogAfter(start, ticks, n - 1), LogAfter(start, ticks, n))
       else SeenOpen(start, ticks, n - 1)
  }

  /** From when on a forecast is due: the period after the last forecast was finished. */
  ghost function DueFrom(ticks: seq<Tick>, n: nat): real
    requires n <= |ticks|
  {
    if n == 0 then 0.0
    else
      var t, before := ticks[n - 1], DueFrom(ticks, n - 1);
      if t.params.enabled && before <= t.dueAt then t.finishedAt + t.params.period else before
  }

  /** A pod has waited too long, nothing is open, the grace is over, and there is room for one more node. */
  ghost predicate Reacts(seen: seq<Event>, t: Tick, start: real) {
    && t.params.qos && t.pending.Some?
    && (exists i :: 0 <= i < |t.pending.value| && t.params.overdueAfter <= t.pending.value[i])
    && !t.inProgress && LastEnd(seen, start) + t.params.grace <= t.reactiveAt
    && t.reactiveWorkers + 1 <= t.params.maxNodes && t.reactiveCreated
  }

  /** The last votes agree on a change within bounds, and a shrink finds no pod waiting and no cooldown. */
  ghost predicate Attempts(voted: seq<Event>, t: Tick) {
    && t.vote.Some? && t.vote.value != 0 && Unanimous(RecentVotes(voted), t.params.cycles, t.vote)
    && t.params.minNodes <= t.forecastWorkers + t.vote.value <= t.params.maxNodes
    && (t.vote.value < 0 ==> t.pending == Some([]) && BlockedUntil(voted) <= t.forecastAt)
  }

  ghost function Seen(before: seq<Event>, t: Tick, open: bool): seq<Event> {
    before + if open && !t.inProgress then [Ended(t.trackedAt, InFlight(before), t.params.cooldown)] else []
  }

  ghost function Reacted(seen: seq<Event>, t: Tick, start: real): seq<Event> {
    seen + if Reacts(seen, t, start)
           then [ReactiveCreated(t.reactiveAt, t.params.grace, t.pending.value, t.params.overdueAfter,
                                 t.reactiveWorkers, t.params.maxNodes)]
           else []
  }

  ghost function Forecast(reacted: seq<Event>, t: Tick): seq<Event> {
    var voted := reacted + [Vote(t.vote)];
    voted + if Attempts(voted, t)
            then [Attempt(t.vote.value, t.params.cycles, t.forecastAt, t.forecastCreated, InFlight(voted), t.pending,
                          t.forecastWorkers, t.params.minNodes, t.params.maxNodes)]
            else []
  }

  /** The log after a tick, each event decided on the log before it. */
  ghost function Logged(before: seq<Event>, t: Tick, start: real, open: bool, due: bool): seq<Event> {
    if !t.params.enabled then before
    else
      var reacted := Reacted(Seen(before, t, open), t, start);
      if due then Forecast(reacted, t) else reacted
  }

  /** Something was created between the two logs. */
  ghost predicate CreatedSince(before: seq<Event>, after: seq<Event>) {
    exists k :: |before| <= k < |after| && IsCreation(after[k])
  }

  // ---------------------------------------------------------------- one step at a time

  lemma {:induction false} AgreeingEnough(votes: seq<Option<int>>, n: int, v: Option<int>)
    requires Unanimous(votes, n, v)
    ensures n <= Agreeing(votes)
  {
    if n > 1 {
      var rest := votes[..|votes| - 1];
      assert votes[|votes| - 2] == v;
      assert Unanimous(rest, n - 1, v);
      AgreeingEnough(rest, n - 1, v);
    }
  }

  lemma TrackLogs(w: World, t: Tick, start: real)
    requires Inv(w, start)
    ensures var u := TrackProgress(w, t.params, t.inProgress, t.trackedAt);
            && u.log == Seen(w.log, t, w.s.idleSince.None?) && (u.s.idleSince.None? <==> t.inProgress)
            && u.nextForecastAt == w.nextForecastAt
  {
    hide RecentVotes, LastEnd, Quiet, Agreeing, Justified, BlockedUntil, InFlight;
  }

  lemma ReactLogs(w: World, t: Tick, start: real)
    requires Inv(w, start) && (w.s.idleSince.None? <==> t.inProgress)
    ensures var u := Reactive(w, t);
            && u.log == Reacted(w.log, t, start) && u.nextForecastAt == w.nextForecastAt
            && (u.s.idleSince.None? <==> t.inProgress || Reacts(w.log, t, start))
  {
    hide RecentVotes, Quiet, Agreeing, Justified, BlockedUntil, InFlight;
    if Reacts(w.log, t, start) {
      assert w.s.idleSince.value == LastEnd(w.log, start);
      assert HasOverdue(t.pending.value, t.params.overdueAfter);
    }
  }

  lemma VoteCounts(w: World, vote: Option<int>, cycles: int, start: real)
    requires Inv(w, start)
    ensures var v, voted := WithVote(w, vote), w.log + [Vote(vote)];
            && (cycles <= v.s.count <==> Unanimous(RecentVotes(voted), cycles, vote))
            && v.s.blockedUntil == BlockedUntil(voted) && v.s.reactiveInFlight == InFlight(voted)
  {
    var v, voted := WithVote(w, vote), w.log + [Vote(vote)];
    VoteKeeps(w, vote, start);
    Extended(w.log, Vote(vote), start);
    var votes := RecentVotes(voted);
    assert votes != [] && votes[|votes| - 1] == vote && v.s.count == Agreeing(votes);
    assert v.s.blockedUntil == BlockedUntil(voted) && v.s.reactiveInFlight == InFlight(voted);
    hide RecentVotes, LastEnd, Quiet, Agreeing, Justified, BlockedUntil, InFlight, Inv, WithVote;
    if cycles <= v.s.count {
      AgreeingMeans(votes, cycles);
    } else if Unanimous(votes, cycles, vote) {
      AgreeingEnough(votes, cycles, vote);
    }
  }

  lemma PredictLogs(w: World, t: Tick, start: real)
    requires Inv(w, start) && t.dueAt >= w.nextForecastAt
    ensures var u := Predictive(w, t);
            && u.log == Forecast(w.log, t) && u.nextForecastAt == t.finishedAt + t.params.period
            && (u.s.idleSince.None? <==>
                w.s.idleSince.None? || (Attempts(w.log + [Vote(t.vote)], t) && t.forecastCreated))
  {
    VoteCounts(w, t.vote, t.params.cycles, start);
    hide RecentVotes, LastEnd, Quiet, Agreeing, Justified, BlockedUntil, InFlight, Inv, Unanimous;
  }

  lemma CreatedWhen(before: seq<Event>, t: Tick, start: real, open: bool, due: bool)
    requires t.params.enabled
    ensures var seen := Seen(before, t, open);
            CreatedSince(before, Logged(before, t, start, open, due)) <==>
            Reacts(seen, t, start)
            || (due && Attempts(Reacted(seen, t, start) + [Vote(t.vote)], t) && t.forecastCreated)
  {
    hide Reacts, Attempts, InFlight;
    var seen, after := Seen(before, t, open), Logged(before, t, start, open, due);
    var reacted := Reacted(seen, t, start);
    if Reacts(seen, t, start) { assert IsCreation(after[|seen|]); }
    if due && Attempts(reacted + [Vote(t.vote)], t) && t.forecastCreated { assert IsCreation(after[|reacted| + 1]); }
  }

  lemma NextLogs(w: World, t: Tick, start: real)
    requires Inv(w, start) && t.params.enabled
    ensures var v, due := Next(w, t), w.nextForecastAt <= t.dueAt;
            && v.log == Logged(w.log, t, start, w.s.idleSince.None?, due)
            && v.nextForecastAt == (if due then t.finishedAt + t.params.period else w.nextForecastAt)
            && (v.s.idleSince.None? <==> t.inProgress || CreatedSince(w.log, v.log))
  {
    var u := TrackProgress(w, t.params, t.inProgress, t.trackedAt);
    var r := Reactive(u, t);
    TrackLogs(w, t, start);
    TrackKeeps(w, t.params, t.inProgress, t.trackedAt, start);
    ReactLogs(u, t, start);
    ReactKeeps(u, t, start);
    if t.dueAt >= r.nextForecastAt { PredictLogs(r, t, start); }
    CreatedWhen(w.log, t, start, w.s.idleSince.None?, w.nextForecastAt <= t.dueAt);
    assert Next(w, t) == Predictive(r, t);
    assert t.dueAt < r.nextForecastAt ==> Predictive(r, t) == r;
    hide Inv, Next, TrackProgress, Reactive, Predictive, Seen, Reacted, Forecast, Reacts, Attempts, CreatedSince;
  }

  // ---------------------------------------------------------------- every run

  /** In every run each tick adds exactly these events: the end of what was open, if nothing is any more;
      a reactive scale-up, if and only if one is called for; and, when a forecast is due, its vote,
      followed by an attempt if and only if the votes, the bounds and, for a shrink, the waiting pods
      and the cooldown allow it. */
  lemma {:induction false} EveryTickLogs(start: real, ticks: seq<Tick>, n: nat)
    requires n < |ticks|
    ensures LogAfter(start, ticks, n + 1)
         == Logged(LogAfter(start, ticks, n), ticks[n], start, SeenOpen(start, ticks, n),
                   DueFrom(ticks, n) <= ticks[n].dueAt)
    ensures After(start, ticks, n).s.idleSince.None? <==> SeenOpen(start, ticks, n)
  {
    OpenAsSeen(start, ticks, n);
    TickLogs(start, ticks, n);
  }

  lemma TickLogs(start: real, ticks: seq<Tick>, n: nat)
    requires n < |ticks|
    requires After(start, ticks, n).s.idleSince.None? <==> SeenOpen(start, ticks, n)
    requires After(start, ticks, n).nextForecastAt == DueFrom(ticks, n)
    ensures var w, v, t := After(start, ticks, n), After(start, ticks, n + 1), ticks[n];
            && v.log == Logged(w.log, t, start, SeenOpen(start, ticks, n), DueFrom(ticks, n) <= t.dueAt)
            && v.nextForecastAt == DueFrom(ticks, n + 1)
            && (t.params.enabled ==> (v.s.idleSince.None? <==> t.inProgress || CreatedSince(w.log, v.log)))
  {
    EveryRunKeepsInv(start, ticks, n);
    if ticks[n].params.enabled { NextLogs(After(start, ticks, n), ticks[n], start); }
    hide Inv, TrackProgress, Reactive, Predictive, SeenOpen, Seen, Reacted, Forecast, CreatedSince;
  }

  lemma {:induction false} OpenAsSeen(start: real, ticks: seq<Tick>, n: nat)
    requires n <= |ticks|
    ensures After(start, ticks, n).s.idleSince.None? <==> SeenOpen(start, ticks, n)
    ensures After(start, ticks, n).nextForecastAt == DueFrom(ticks, n)
  {
    if n > 0 {
      OpenAsSeen(start, ticks, n - 1);
      TickLogs(start, ticks, n - 1);
      hide Logged, DueFrom, Next, Initial;
      assert LogAfter(start, ticks, n) == After(start, ticks, n).log;
      assert LogAfter(start, ticks, n - 1) == After(start, ticks, n - 1).log;
    }
  }
}
