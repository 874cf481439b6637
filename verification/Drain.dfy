/** Switching a node off and on: cordon, drain, power, wait; with every action logged and every reply of
    the outside world a parameter. */
module Drain {

  datatype Eviction = Accepted | Gone | Blocked | Refused

  /** A pod of the node as one poll sees it, and how the API answers its eviction. */
  datatype Pod = Pod(name: string, daemonSet: bool, mirror: bool, finished: bool, terminating: bool, eviction: Eviction)

  datatype Poll = ListFails | Pods(pods: seq<Pod>)

  datatype Readiness = ReadFails | Ready | NotReady

  datatype Action =
    | Cordon
    | Uncordon
    | Saw(pods: seq<Pod>)
    | Evict(pod: Pod)
    | PowerOff(accepted: bool)
    | PowerOn(accepted: bool)
    | SawReadiness(readiness: Readiness)
    | CountCycle

  /** The replies to one attempt. A poll loop times out when its replies run out. */
  datatype Replies = Replies(
    secret: bool, node: bool, cordon: bool, polls: seq<Poll>, power: bool, waits: seq<Readiness>,
    nodeAgain: bool, uncordon: bool, nodeLast: bool, annotate: bool)

  datatype Result = Result(ok: bool, cordoned: bool, actions: seq<Action>)

  /** A pod that would not survive the shutdown. */
  predicate MustLeave(p: Pod) {
    !p.daemonSet && !p.mirror && !p.finished
  }

  // ---------------------------------------------------------------- the drain

  /** The evictions of one poll, and whether one was refused, which ends the poll. */
  function Evictions(pods: seq<Pod>): (seq<Action>, bool) {
    if pods == [] then ([], false)
    else if !MustLeave(pods[0]) || pods[0].terminating then Evictions(pods[1..])
    else if pods[0].eviction == Refused then ([Evict(pods[0])], true)
    else ([Evict(pods[0])] + Evictions(pods[1..]).0, Evictions(pods[1..]).1)
  }

  // ---------------------------------------------------------------- one poll, pod by pod

  /** A pod that is neither a DaemonSet's nor a mirror pod nor finished, and not leaving yet. */
  predicate IsDue(p: Pod) {
    !p.daemonSet && !p.mirror && !p.finished && !p.terminating
  }

  /** Its eviction is refused. A pod that is gone, or whose eviction is blocked for now, is no obstacle. */
  predicate Refuses(p: Pod) {
    IsDue(p) && p.eviction == Refused
  }

  /** The due pods among the first n, in the order of the list. */
  function DueAmong(pods: seq<Pod>, n: nat): seq<Pod>
    requires n <= |pods|
  {
    if n == 0 then [] else DueAmong(pods, n - 1) + (if IsDue(pods[n - 1]) then [pods[n - 1]] else [])
  }

  /** One eviction each. */
  function EvictEach(pods: seq<Pod>): (actions: seq<Action>)
    ensures |actions| == |pods| && forall k :: 0 <= k < |pods| ==> actions[k] == Evict(pods[k])
  {
    seq(|pods|, k requires 0 <= k < |pods| => Evict(pods[k]))
  }

  /** Refused at the first due pod whose eviction is, and only then; all due pods up to there are evicted. */
  ghost predicate EndsAt(pods: seq<Pod>, n: nat, refused: bool) {
    && n <= |pods|
    && (if refused then n > 0 && Refuses(pods[n - 1]) else n == |pods|)
    && forall i :: 0 <= i < (if refused then n - 1 else n) ==> !Refuses(pods[i])
  }

  ghost predicate IsPass(pods: seq<Pod>, actions: seq<Action>, refused: bool) {
    exists n :: EndsAt(pods, n, refused) && actions == EvictEach(DueAmong(pods, n))
  }

  lemma {:induction false} DueFromFront(pods: seq<Pod>, m: nat)
    requires m < |pods|
    ensures DueAmong(pods, m + 1) == (if IsDue(pods[0]) then [pods[0]] else []) + DueAmong(pods[1..], m)
  {
    hide IsDue;
    if m == 0 {
      assert DueAmong(pods, 0) == [] == DueAmong(pods[1..], 0);
    } else {
      DueFromFront(pods, m - 1);
      assert pods[1..][m - 1] == pods[m];
    }
  }

  lemma PassEnds(pods: seq<Pod>, m: nat, refused: bool)
    requires pods != [] && !Refuses(pods[0]) && EndsAt(pods[1..], m, refused)
    ensures EndsAt(pods, m + 1, refused)
  {
    hide Refuses;
    forall i | 0 <= i < (if refused then m else m + 1) ensures !Refuses(pods[i]) {
      if i > 0 { assert pods[1..][i - 1] == pods[i]; }
    }
  }

  lemma {:induction false} PassOf(pods: seq<Pod>) returns (n: nat)
    ensures EndsAt(pods, n, Evictions(pods).1) && Evictions(pods).0 == EvictEach(DueAmong(pods, n))
  {
    if pods == [] {
      n := 0;
    } else if Refuses(pods[0]) {
      n := 1;
      assert DueAmong(pods, 0) == [];
    } else {
      var m := PassOf(pods[1..]);
      n := m + 1;
      PassEnds(pods, m, Evictions(pods[1..]).1);
      DueFromFront(pods, m);
      hide EndsAt, DueAmong;
      assert EvictEach([pods[0]] + DueAmong(pods[1..], m)) == [Evict(pods[0])] + EvictEach(DueAmong(pods[1..], m));
      assert [] + DueAmong(pods[1..], m) == DueAmong(pods[1..], m);
    }
  }

  /** In every poll each pod that must leave and is not leaving yet is evicted exactly once, in list order, up
      to the first refusal. */
  lemma {:induction false} EvictionsArePass(pods: seq<Pod>)
    ensures IsPass(pods, Evictions(pods).0, Evictions(pods).1)
  {
    var n := PassOf(pods);
  }

  /** The poll is refused exactly when some such pod's eviction is. */
  lemma {:induction false} RefusedIff(pods: seq<Pod>)
    ensures Evictions(pods).1 <==> exists i :: 0 <= i < |pods| && Refuses(pods[i])
  {
    var n := PassOf(pods);
    if Evictions(pods).1 { assert Refuses(pods[n - 1]); }
  }

  predicate IsEmptied(pods: seq<Pod>) {
    forall i :: 0 <= i < |pods| ==> !MustLeave(pods[i])
  }

  function Evacuate(polls: seq<Poll>): (bool, seq<Action>) {
    if polls == [] || polls[0].ListFails? then (false, [])
    else
      var pods := polls[0].pods;
      var (evictions, refused) := Evictions(pods);
      if refused then (false, [Saw(pods)] + evictions)
      else if IsEmptied(pods) then (true, [Saw(pods)])
      else
        var (ok, rest) := Evacuate(polls[1..]);
        (ok, [Saw(pods)] + evictions + rest)
  }

  function CordonAndDrain(cordoned: bool, r: Replies): Result {
    if !r.node || (!cordoned && !r.cordon) then Result(false, cordoned, [])
    else
      var (ok, actions) := Evacuate(r.polls);
      Result(ok, true, (if cordoned then [] else [Cordon]) + actions)
  }

  function UncordonNode(cordoned: bool, node: bool, patch: bool): Result {
    if !node then Result(false, cordoned, [])
    else if !cordoned then Result(true, false, [])
    else if !patch then Result(false, true, [])
    else Result(true, false, [Uncordon])
  }

  /** Polls until the wanted readiness is read; ends early when a read fails. */
  function Await(waits: seq<Readiness>, wanted: Readiness): (bool, seq<Action>) {
    if waits == [] then (false, [])
    else if waits[0] == wanted then (true, [SawReadiness(waits[0])])
    else if waits[0] == ReadFails then (false, [SawReadiness(ReadFails)])
    else
      var (ok, rest) := Await(waits[1..], wanted);
      (ok, [SawReadiness(waits[0])] + rest)
  }

  function ScaleDown(cordoned: bool, r: Replies): Result {
    if !r.secret then Result(false, cordoned, [])
    else
      var drained := CordonAndDrain(cordoned, r);
      if !drained.ok then
        var back := UncordonNode(drained.cordoned, r.nodeAgain, r.uncordon);
        Result(false, back.cordoned, drained.actions + back.actions)
      else if !r.power then
        var back := UncordonNode(drained.cordoned, r.nodeAgain, r.uncordon);
        Result(false, back.cordoned, drained.actions + [PowerOff(false)] + back.actions)
      else
        var (off, waited) := Await(r.waits, NotReady);
        Result(off, drained.cordoned, drained.actions + [PowerOff(true)] + waited)
  }

  function ScaleUp(cordoned: bool, r: Replies): Result {
    if !r.secret then Result(false, cordoned, [])
    else if !r.power then Result(false, cordoned, [PowerOn(false)])
    else
      var (on, waited) := Await(r.waits, Ready);
      if !on then Result(false, cordoned, [PowerOn(true)] + waited)
      else
        var back := UncordonNode(cordoned, r.nodeAgain, r.uncordon);
        if !back.ok then Result(false, back.cordoned, [PowerOn(true)] + waited + back.actions)
        else if !r.nodeLast || !r.annotate then Result(false, false, [PowerOn(true)] + waited + back.actions)
        else Result(true, false, [PowerOn(true)] + waited + back.actions + [CountCycle])
  }

  // ---------------------------------------------------------------- what a log shows

  /** Whether the node is cordoned after these actions. */
  function CordonedAfter(cordoned: bool, actions: seq<Action>): bool {
    if actions == [] then cordoned
    else
      match actions[|actions| - 1]
      case Cordon => true
      case Uncordon => false
      case _ => CordonedAfter(cordoned, actions[..|actions| - 1])
  }

  predicate Touches(a: Action) {
    a.Cordon? || a.Uncordon?
  }

  lemma {:induction false} CordonedAfterBoth(cordoned: bool, a: seq<Action>, b: seq<Action>)
    ensures CordonedAfter(cordoned, a + b) == CordonedAfter(CordonedAfter(cordoned, a), b)
  {
    if b == [] {
      assert a + b == a;
    } else {
      assert (a + b)[..|a + b| - 1] == a + b[..|b| - 1];
      CordonedAfterBoth(cordoned, a, b[..|b| - 1]);
    }
  }

  lemma {:induction false} UntouchedKeeps(cordoned: bool, a: seq<Action>)
    requires forall i :: 0 <= i < |a| ==> !Touches(a[i])
    ensures CordonedAfter(cordoned, a) == cordoned
  {
    if a != [] { UntouchedKeeps(cordoned, a[..|a| - 1]); }
  }

  /** Only sightings, and evictions of pods that must leave and are not leaving yet. */
  ghost predicate IsDrainAction(a: Action) {
    a.Saw? || (a.Evict? && MustLeave(a.pod) && !a.pod.terminating)
  }

  lemma {:induction false} EvictionsAre(pods: seq<Pod>)
    ensures forall i :: 0 <= i < |Evictions(pods).0| ==>
              IsDrainAction(Evictions(pods).0[i]) && Evictions(pods).0[i].Evict?
    ensures IsEmptied(pods) ==> Evictions(pods) == ([], false)
  {
    if pods != [] {
      EvictionsAre(pods[1..]);
      if IsEmptied(pods) {
        assert !MustLeave(pods[0]);
        assert IsEmptied(pods[1..]);
      }
    }
  }

  lemma {:induction false} EvacuateIs(polls: seq<Poll>)
    ensures var (ok, actions) := Evacuate(polls);
            && (forall i :: 0 <= i < |actions| ==> IsDrainAction(actions[i]))
            && (ok ==> actions != [] && actions[|actions| - 1].Saw? && IsEmptied(actions[|actions| - 1].pods))
  {
    if polls != [] && polls[0].Pods? {
      EvictionsAre(polls[0].pods);
      EvacuateIs(polls[1..]);
    }
  }

  lemma {:induction false} AwaitIs(waits: seq<Readiness>, wanted: Readiness)
    requires wanted != ReadFails
    ensures var (ok, actions) := Await(waits, wanted);
            && (forall i :: 0 <= i < |actions| ==> actions[i].SawReadiness?)
            && (ok <==> actions != [] && actions[|actions| - 1] == SawReadiness(wanted))
  {
    if waits != [] && waits[0] != wanted && waits[0] != ReadFails {
      AwaitIs(waits[1..], wanted);
    }
  }

  /** Before the node is powered off it is cordoned, and the last poll saw only pods that may stay. */
  ghost predicate SafeToPowerOff(cordoned: bool, before: seq<Action>) {
    && CordonedAfter(cordoned, before)
    && before != [] && before[|before| - 1].Saw? && IsEmptied(before[|before| - 1].pods)
  }

  lemma DrainActions(cordoned: bool, r: Replies)
    ensures var d := CordonAndDrain(cordoned, r);
            && d.cordoned == CordonedAfter(cordoned, d.actions)
            && (forall i :: 0 <= i < |d.actions| ==> d.actions[i].Cordon? || IsDrainAction(d.actions[i]))
            && (d.ok ==> SafeToPowerOff(cordoned, d.actions))
  {
    EvacuateIs(r.polls);
    var (ok, actions) := Evacuate(r.polls);
    UntouchedKeeps(true, actions);
    var head := if cordoned then [] else [Cordon];
    assert CordonedAfter(cordoned, head) by { assert head != [] ==> head[|head| - 1] == Cordon; }
    CordonedAfterBoth(cordoned, head, actions);
    hide Evacuate, CordonedAfter;
  }

  /** In every attempt that powers the node off: the node was cordoned and the last poll had found it
      drained. Nothing but pods that must leave was ever evicted, and the reported cordon is the log's. */
  lemma {:induction false} PowerOffOnlyWhenDrained(cordoned: bool, r: Replies, k: nat)
    requires k < |ScaleDown(cordoned, r).actions|
    ensures var a := ScaleDown(cordoned, r).actions;
            && (a[k].PowerOff? ==> SafeToPowerOff(cordoned, a[..k]))
            && (a[k].Evict? ==> MustLeave(a[k].pod) && !a[k].pod.terminating)
  {
    DrainActions(cordoned, r);
    AwaitIs(r.waits, NotReady);
    var d := CordonAndDrain(cordoned, r);
    var a := ScaleDown(cordoned, r).actions;
    hide CordonAndDrain, Await, SafeToPowerOff;
    if k < |d.actions| {
      assert a[k] == d.actions[k];
    } else if k == |d.actions| && d.ok {
      assert a[..k] == d.actions;
    }
  }

  /** A poll that goes on: the pods are listed, no eviction is refused, and some pod is still there. */
  ghost predicate IsUnfinished(poll: Poll) {
    && poll.Pods? && !IsEmptied(poll.pods)
    && forall i :: 0 <= i < |poll.pods| ==> !Refuses(poll.pods[i])
  }

  /** Some poll finds the node emptied, and every earlier one goes on. */
  ghost predicate IsEmptiedInTime(polls: seq<Poll>) {
    exists n ::
      0 <= n < |polls| && polls[n].Pods? && IsEmptied(polls[n].pods)
      && forall m :: 0 <= m < n ==> IsUnfinished(polls[m])
  }

  /** The drain succeeds exactly when that happens. */
  lemma {:induction false} DrainSucceedsIff(polls: seq<Poll>)
    ensures Evacuate(polls).0 <==> IsEmptiedInTime(polls)
  {
    if polls != [] && polls[0].Pods? {
      EvictionsAre(polls[0].pods);
      RefusedIff(polls[0].pods);
      var rest := polls[1..];
      if IsUnfinished(polls[0]) {
        DrainSucceedsIff(rest);
        if Evacuate(rest).0 {
          var n :| 0 <= n < |rest| && rest[n].Pods? && IsEmptied(rest[n].pods)
                   && forall m :: 0 <= m < n ==> IsUnfinished(rest[m]);
          assert polls[n + 1] == rest[n];
          forall m | 0 <= m < n + 1 ensures IsUnfinished(polls[m]) { if m > 0 { assert polls[m] == rest[m - 1]; } }
        }
        if IsEmptiedInTime(polls) {
          var n :| 0 <= n < |polls| && polls[n].Pods? && IsEmptied(polls[n].pods)
                   && forall m :: 0 <= m < n ==> IsUnfinished(polls[m]);
          assert n > 0;
          assert rest[n - 1] == polls[n];
          forall m | 0 <= m < n - 1 ensures IsUnfinished(rest[m]) { assert rest[m] == polls[m + 1]; }
        }
      }
    }
  }

  /** The passes of a drain put together. */
  function Joined(passes: seq<seq<Action>>): seq<Action> {
    if passes == [] then [] else passes[0] + Joined(passes[1..])
  }

  /** Pass m sees what poll m lists and evicts what is due. Every pass but the last one goes on, the last one
      ends the drain, or the polls do, or the list fails. */
  ghost predicate IsDrainLog(polls: seq<Poll>, passes: seq<seq<Action>>) {
    && |passes| <= |polls|
    && (forall m :: 0 <= m < |passes| ==> polls[m].Pods? && IsPollLog(polls[m].pods, passes[m]))
    && (forall m :: 0 <= m < |passes| - 1 ==> IsUnfinished(polls[m]))
    && (|passes| == |polls| || polls[|passes|].ListFails? || (passes != [] && !IsUnfinished(polls[|passes| - 1])))
  }

  ghost predicate IsPollLog(pods: seq<Pod>, pass: seq<Action>) {
    pass != [] && pass[0] == Saw(pods) && exists refused :: IsPass(pods, pass[1..], refused)
  }

  lemma PollLogged(pods: seq<Pod>)
    ensures IsPollLog(pods, [Saw(pods)] + Evictions(pods).0)
    ensures IsEmptied(pods) ==> Evictions(pods) == ([], false)
  {
    EvictionsArePass(pods);
    EvictionsAre(pods);
    assert ([Saw(pods)] + Evictions(pods).0)[1..] == Evictions(pods).0;
    hide IsPass;
  }

  /** What a drain does, poll by poll. */
  lemma {:induction false} EvacuateLogs(polls: seq<Poll>) returns (passes: seq<seq<Action>>)
    ensures IsDrainLog(polls, passes) && Evacuate(polls).1 == Joined(passes)
  {
    if polls == [] || polls[0].ListFails? {
      passes := [];
    } else {
      var pods := polls[0].pods;
      var pass := [Saw(pods)] + Evictions(pods).0;
      PollLogged(pods);
      RefusedIff(pods);
      assert Joined([]) == [];
      if IsUnfinished(polls[0]) {
        var later := EvacuateLogs(polls[1..]);
        passes := [pass] + later;
        assert passes[1..] == later;
        hide IsUnfinished, IsPollLog, Evictions;
        LaterPasses(polls, pass, later);
      } else {
        passes := [pass];
        assert passes[1..] == [];
        assert pass + [] == pass;
        hide IsPollLog;
      }
    }
  }

  lemma LaterPasses(polls: seq<Poll>, pass: seq<Action>, later: seq<seq<Action>>)
    requires polls != [] && polls[0].Pods? && IsPollLog(polls[0].pods, pass) && IsUnfinished(polls[0])
    requires IsDrainLog(polls[1..], later)
    ensures IsDrainLog(polls, [pass] + later)
  {
    hide IsUnfinished, IsPollLog;
    var rest, passes := polls[1..], [pass] + later;
    forall m | 0 <= m < |passes| ensures polls[m].Pods? && IsPollLog(polls[m].pods, passes[m]) {
      if m > 0 { assert rest[m - 1] == polls[m] && later[m - 1] == passes[m]; }
    }
    forall m | 0 <= m < |passes| - 1 ensures IsUnfinished(polls[m]) {
      if m > 0 { assert rest[m - 1] == polls[m]; }
    }
    if |passes| < |polls| { assert rest[|later|] == polls[|passes|]; }
    if later != [] { assert rest[|later| - 1] == polls[|passes| - 1]; }
  }

  /** The wanted readiness is read before any read fails. */
  ghost predicate IsSeen(waits: seq<Readiness>, wanted: Readiness) {
    exists n :: 0 <= n < |waits| && waits[n] == wanted && forall m :: 0 <= m < n ==> waits[m] != ReadFails
  }

  lemma {:induction false} AwaitSucceedsIff(waits: seq<Readiness>, wanted: Readiness)
    requires wanted != ReadFails
    ensures Await(waits, wanted).0 <==> IsSeen(waits, wanted)
  {
    if waits != [] && waits[0] != wanted && waits[0] != ReadFails {
      var rest := waits[1..];
      AwaitSucceedsIff(rest, wanted);
      if IsSeen(rest, wanted) {
        var n :| 0 <= n < |rest| && rest[n] == wanted && forall m :: 0 <= m < n ==> rest[m] != ReadFails;
        assert waits[n + 1] == wanted;
        forall m | 0 <= m < n + 1 ensures waits[m] != ReadFails { if m > 0 { assert waits[m] == rest[m - 1]; } }
      }
      if n :| 0 <= n < |waits| && waits[n] == wanted && forall m :: 0 <= m < n ==> waits[m] != ReadFails {
        assert n > 0;
        assert rest[n - 1] == wanted;
        forall m | 0 <= m < n - 1 ensures rest[m] != ReadFails { assert rest[m] == waits[m + 1]; }
      }
    }
  }

  lemma UncordonActions(cordoned: bool, node: bool, patch: bool)
    ensures var u := UncordonNode(cordoned, node, patch);
            u.cordoned == CordonedAfter(cordoned, u.actions) && (node && patch ==> !u.cordoned)
              && (u.ok ==> !u.cordoned)
            && (forall i :: 0 <= i < |u.actions| ==> u.actions[i] == Uncordon)
  {
  }

  /** Actions in between that touch no cordon do not matter. */
  lemma UntouchedMiddle(cordoned: bool, a: seq<Action>, b: seq<Action>, c: seq<Action>)
    requires forall i :: 0 <= i < |b| ==> !Touches(b[i])
    ensures CordonedAfter(cordoned, a + b + c) == CordonedAfter(CordonedAfter(cordoned, a), c)
  {
    CordonedAfterBoth(cordoned, a + b, c);
    CordonedAfterBoth(cordoned, a, b);
    UntouchedKeeps(CordonedAfter(cordoned, a), b);
  }

  /** The reported cordon is the one the actions leave behind. */
  lemma {:induction false} ScaleDownReports(cordoned: bool, r: Replies)
    ensures ScaleDown(cordoned, r).cordoned == CordonedAfter(cordoned, ScaleDown(cordoned, r).actions)
  {
    var d := CordonAndDrain(cordoned, r);
    var u := UncordonNode(d.cordoned, r.nodeAgain, r.uncordon);
    var waited := Await(r.waits, NotReady).1;
    DrainActions(cordoned, r);
    AwaitIs(r.waits, NotReady);
    UncordonActions(d.cordoned, r.nodeAgain, r.uncordon);
    assert CordonedAfter(cordoned, []) == cordoned;
    hide CordonAndDrain, UncordonNode, Await, CordonedAfter, IsDrainAction, SafeToPowerOff;
    if !d.ok {
      CordonedAfterBoth(cordoned, d.actions, u.actions);
    } else if !r.power {
      UntouchedMiddle(cordoned, d.actions, [PowerOff(false)], u.actions);
    } else {
      UntouchedMiddle(cordoned, d.actions, [PowerOff(true)], waited);
      UntouchedKeeps(d.cordoned, waited);
    }
  }

  /** The node gets cordoned, or is so already. */
  predicate IsCordoned(cordoned: bool, r: Replies) {
    cordoned || (r.node && r.cordon)
  }

  /** The node gets cordoned and drained. */
  ghost predicate IsDrained(cordoned: bool, r: Replies) {
    r.node && IsCordoned(cordoned, r) && IsEmptiedInTime(r.polls)
  }

  lemma DrainedIff(cordoned: bool, r: Replies)
    ensures var d := CordonAndDrain(cordoned, r);
            (d.ok <==> IsDrained(cordoned, r)) && (d.cordoned <==> IsCordoned(cordoned, r))
  {
    DrainSucceedsIff(r.polls);
    hide IsEmptiedInTime, Evacuate;
  }

  /** Switching off succeeds exactly when the credentials are there, the node is drained, its controller
      accepts the power-off, and the node is then seen to be off. */
  lemma {:induction false} ScaleDownSucceedsIff(cordoned: bool, r: Replies)
    ensures ScaleDown(cordoned, r).ok <==>
            r.secret && IsDrained(cordoned, r) && r.power && IsSeen(r.waits, NotReady)
  {
    DrainedIff(cordoned, r);
    AwaitSucceedsIff(r.waits, NotReady);
    hide CordonAndDrain, IsDrained, IsSeen, Await;
  }

  /** A failed attempt that got past the credentials leaves the node cordoned exactly when it had been
      drained and its power-off accepted, or when it was cordoned and could not be uncordoned. */
  lemma {:induction false} FailureEndsUncordoned(cordoned: bool, r: Replies)
    requires r.secret && !ScaleDown(cordoned, r).ok
    ensures ScaleDown(cordoned, r).cordoned <==>
            (IsDrained(cordoned, r) && r.power) || (IsCordoned(cordoned, r) && !(r.nodeAgain && r.uncordon))
  {
    DrainedIff(cordoned, r);
    assert IsDrained(cordoned, r) ==> IsCordoned(cordoned, r);
    hide CordonAndDrain, IsDrained, IsCordoned, Await;
  }

  /** An administrator's cordon does not survive a drain that fails. */
  lemma {:induction false} FailedDrainUndoesCordon(r: Replies)
    requires r.secret && !IsDrained(true, r) && r.nodeAgain && r.uncordon
    ensures !ScaleDown(true, r).ok && !ScaleDown(true, r).cordoned
  {
    ScaleDownSucceedsIff(true, r);
    hide IsDrained, IsSeen, ScaleDown;
    FailureEndsUncordoned(true, r);
  }

  /** A successful one ends with a cordoned node that was seen to be off, after one accepted power-off. */
  lemma {:induction false} SuccessEndsOff(cordoned: bool, r: Replies)
    requires ScaleDown(cordoned, r).ok
    ensures var s := ScaleDown(cordoned, r);
            s.cordoned && PowerOff(true) in s.actions && s.actions[|s.actions| - 1] == SawReadiness(NotReady)
  {
    AwaitIs(r.waits, NotReady);
    DrainActions(cordoned, r);
    var d := CordonAndDrain(cordoned, r);
    assert d.ok ==> d.cordoned;
    assert ScaleDown(cordoned, r).actions[|d.actions|] == PowerOff(true);
    hide CordonAndDrain, Await;
  }

  lemma ScaleUpActions(cordoned: bool, r: Replies)
    ensures var s := ScaleUp(cordoned, r);
            var waited, u := Await(r.waits, Ready).1, UncordonNode(cordoned, r.nodeAgain, r.uncordon);
            if !r.secret then s == Result(false, cordoned, [])
            else if !r.power then s == Result(false, cordoned, [PowerOn(false)])
            else if !Await(r.waits, Ready).0 then s == Result(false, cordoned, [PowerOn(true)] + waited)
            else if s.ok then !s.cordoned && s.actions == [PowerOn(true)] + waited + u.actions + [CountCycle] && u.ok
            else s.cordoned == u.cordoned && s.actions == [PowerOn(true)] + waited + u.actions
  {
    UncordonActions(cordoned, r.nodeAgain, r.uncordon);
    hide UncordonNode, Await, CordonedAfter;
  }

  /** The reported cordon is the one the actions leave behind. */
  lemma {:induction false} ScaleUpReports(cordoned: bool, r: Replies)
    ensures ScaleUp(cordoned, r).cordoned == CordonedAfter(cordoned, ScaleUp(cordoned, r).actions)
  {
    var waited, u := Await(r.waits, Ready).1, UncordonNode(cordoned, r.nodeAgain, r.uncordon);
    ScaleUpActions(cordoned, r);
    AwaitIs(r.waits, Ready);
    UncordonActions(cordoned, r.nodeAgain, r.uncordon);
    UntouchedKeeps(cordoned, [PowerOn(false)]);
    UntouchedKeeps(cordoned, [PowerOn(true)]);
    assert CordonedAfter(cordoned, []) == cordoned;
    hide UncordonNode, Await, CordonedAfter, ScaleUp;
    UntouchedMiddle(cordoned, [PowerOn(true)], waited, u.actions);
    CordonedAfterBoth(cordoned, [PowerOn(true)] + waited + u.actions, [CountCycle]);
    UntouchedKeeps(u.cordoned, [CountCycle]);
    UntouchedMiddle(cordoned, [PowerOn(true)], waited, []);
    assert [PowerOn(true)] + waited + [] == [PowerOn(true)] + waited;
    UntouchedKeeps(cordoned, []);
  }

  /** Switching on succeeds exactly when the credentials are there, its controller accepts the power-on, the
      node is then seen to be ready, its cordon can be taken off, and the cycle can be counted. */
  lemma {:induction false} ScaleUpSucceedsIff(cordoned: bool, r: Replies)
    ensures ScaleUp(cordoned, r).ok <==>
            r.secret && r.power && IsSeen(r.waits, Ready) && r.nodeAgain && (cordoned ==> r.uncordon)
            && r.nodeLast && r.annotate
    ensures ScaleUp(cordoned, r).cordoned <==>
            cordoned && !(r.secret && r.power && IsSeen(r.waits, Ready) && r.nodeAgain && r.uncordon)
  {
    AwaitSucceedsIff(r.waits, Ready);
    hide Await, IsSeen;
  }

  /** Switching on succeeds exactly when the cycle is counted; then the node was seen ready and is
      schedulable. */
  lemma {:induction false} ScaleUpCounts(cordoned: bool, r: Replies)
    ensures var s := ScaleUp(cordoned, r);
            && (s.ok <==> CountCycle in s.actions)
            && (s.ok ==> !s.cordoned && SawReadiness(Ready) in s.actions && PowerOn(true) in s.actions)
  {
    var waited, u := Await(r.waits, Ready).1, UncordonNode(cordoned, r.nodeAgain, r.uncordon);
    ScaleUpActions(cordoned, r);
    AwaitIs(r.waits, Ready);
    UncordonActions(cordoned, r.nodeAgain, r.uncordon);
    hide UncordonNode, Await, CordonedAfter;
    assert CountCycle !in waited && CountCycle !in u.actions;
    var s := ScaleUp(cordoned, r);
    if s.ok {
      assert s.actions[|s.actions| - 1] == CountCycle && s.actions[0] == PowerOn(true);
      assert SawReadiness(Ready) in waited;
    }
  }
}
