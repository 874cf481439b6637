/** The node handler as it runs: an object that flips the node's mark and logs what it does. Each method
    performs exactly the run of the specification. */
module NodeHandler {
  import opened Drain

  /** What the drain does from poll i on. */
  lemma EvacuateStep(polls: seq<Drain.Poll>, i: nat)
    requires i < |polls|
    ensures Evacuate(polls[i..])
         == if polls[i].ListFails? then (false, [])
            else
              var (evictions, refused) := Evictions(polls[i].pods);
              var (ok, rest) := Evacuate(polls[i + 1..]);
              if refused then (false, [Saw(polls[i].pods)] + evictions)
              else if IsEmptied(polls[i].pods) then (true, [Saw(polls[i].pods)] + evictions)
              else (ok, [Saw(polls[i].pods)] + evictions + rest)
  {
    assert polls[i..][0] == polls[i] && polls[i..][1..] == polls[i + 1..];
    if polls[i].Pods? {
      EvictionsAre(polls[i].pods);
      assert [Saw(polls[i].pods)] + [] == [Saw(polls[i].pods)];
    }
    hide Evictions, IsEmptied;
  }

  class Handler {
    var unschedulable: bool
    ghost var log: seq<Action>

    constructor (cordoned: bool)
      ensures unschedulable == cordoned && log == []
    {
      unschedulable, log := cordoned, [];
    }

    /** One poll's pass over the pods, with the count of those that remain. */
    method EvictAll(pods: seq<Pod>) returns (remaining: nat, refused: bool)
      modifies this`log
      ensures log == old(log) + Evictions(pods).0 && refused == Evictions(pods).1
      ensures !refused ==> (remaining == 0 <==> IsEmptied(pods))
      ensures old(log) <= log && IsPass(pods, log[|old(log)|..], refused)
    {
      remaining := 0;
      EvictionsArePass(pods);
      ghost var evictions := Evictions(pods).0;
      assert forall rest :: rest == old(log) + evictions ==> rest[|old(log)|..] == evictions;
      hide IsPass;
      for i := 0 to |pods|
        invariant log + Evictions(pods[i..]).0 == old(log) + Evictions(pods).0
        invariant Evictions(pods[i..]).1 == Evictions(pods).1
        invariant remaining == 0 <==> forall j :: 0 <= j < i ==> !MustLeave(pods[j])
      {
        var pod := pods[i];
        assert pods[i..][0] == pod && pods[i..][1..] == pods[i + 1..];
        if !MustLeave(pod) { continue; }
        remaining := remaining + 1;
        if pod.terminating { continue; }
        log := log + [Evict(pod)];
        match pod.eviction {
          case Gone =>
          case Blocked =>
          case Accepted =>
          case Refused => return remaining, true;
        }
      }
      refused := false;
    }

    /** Polls until the node is emptied, a call fails, or the time is up. */
    method Poll(polls: seq<Drain.Poll>) returns (ok: bool)
      modifies this`log
      ensures ok == Evacuate(polls).0 && log == old(log) + Evacuate(polls).1
    {
      assert polls[0..] == polls;
      for i := 0 to |polls|
        invariant log + Evacuate(polls[i..]).1 == old(log) + Evacuate(polls).1
        invariant Evacuate(polls[i..]).0 == Evacuate(polls).0
      {
        ghost var before := log;
        var poll := polls[i];
        EvacuateStep(polls, i);
        hide Evacuate, Evictions, MustLeave, IsPass, IsEmptied;
        if poll.ListFails? { return false; }
        log := log + [Saw(poll.pods)];
        var remaining, refused := EvictAll(poll.pods);
        assert log == before + ([Saw(poll.pods)] + Evictions(poll.pods).0);
        if refused { return false; }
        if remaining == 0 { return true; }
        assert log + Evacuate(polls[i + 1..]).1 == before
          + ([Saw(poll.pods)] + Evictions(poll.pods).0 + Evacuate(polls[i + 1..]).1);
      }
      assert polls[|polls|..] == [];
      return false;
    }

    method CordonAndDrain(r: Replies) returns (ok: bool)
      modifies this
      ensures var d := Drain.CordonAndDrain(old(unschedulable), r);
              ok == d.ok && unschedulable == d.cordoned && log == old(log) + d.actions
    {
      if !r.node { return false; }
      if !unschedulable {
        if !r.cordon { return false; }
        unschedulable := true;
        log := log + [Cordon];
      }
      ghost var head := log;
      ok := Poll(r.polls);
      hide Evacuate;
      assert head == old(log) + if old(unschedulable) then [] else [Cordon];
    }

    method UncordonNode(node: bool, patch: bool) returns (ok: bool)
      modifies this
      ensures var u := Drain.UncordonNode(old(unschedulable), node, patch);
              ok == u.ok && unschedulable == u.cordoned && log == old(log) + u.actions
    {
      if !node { return false; }
      if !unschedulable { return true; }
      if !patch { return false; }
      unschedulable := false;
      log := log + [Uncordon];
      return true;
    }

    method Await(waits: seq<Readiness>, wanted: Readiness) returns (ok: bool)
      modifies this`log
      ensures var (done, actions) := Drain.Await(waits, wanted); ok == done && log == old(log) + actions
    {
      for i := 0 to |waits|
        invariant log + Drain.Await(waits[i..], wanted).1 == old(log) + Drain.Await(waits, wanted).1
        invariant Drain.Await(waits[i..], wanted).0 == Drain.Await(waits, wanted).0
      {
        assert waits[i..][0] == waits[i] && waits[i..][1..] == waits[i + 1..];
        log := log + [SawReadiness(waits[i])];
        if waits[i] == wanted { return true; }
        if waits[i] == ReadFails { return false; }
      }
      assert waits[|waits|..] == [];
      return false;
    }

    /** Drains the node, powers it off and waits until it is off. */
    method DrainAndPowerOff(r: Replies) returns (ok: bool)
      modifies this
      ensures var s := Drain.ScaleDown(old(unschedulable), r);
              ok == s.ok && unschedulable == s.cordoned && log == old(log) + s.actions
    {
      hide Drain.Await, Drain.UncordonNode, Drain.CordonAndDrain;
      if !r.secret { return false; }
      var drained := CordonAndDrain(r);
      if !drained {
        var _ := UncordonNode(r.nodeAgain, r.uncordon);
        return false;
      }
      log := log + [PowerOff(r.power)];
      if !r.power {
        var _ := UncordonNode(r.nodeAgain, r.uncordon);
        return false;
      }
      ok := Await(r.waits, NotReady);
    }

    /** Whenever the node is powered off it is cordoned, and the last poll saw only pods that may stay. */
    method ScaleDown(r: Replies) returns (ok: bool)
      modifies this
      ensures var s := Drain.ScaleDown(old(unschedulable), r);
              ok == s.ok && unschedulable == s.cordoned && log == old(log) + s.actions
      ensures forall k :: |old(log)| <= k < |log| && log[k].PowerOff? ==>
                SafeToPowerOff(old(unschedulable), log[|old(log)|..k])
    {
      hide Drain.ScaleDown, SafeToPowerOff;
      ok := DrainAndPowerOff(r);
      ghost var actions := Drain.ScaleDown(old(unschedulable), r).actions;
      forall k | |old(log)| <= k < |log| && log[k].PowerOff?
        ensures SafeToPowerOff(old(unschedulable), log[|old(log)|..k])
      {
        PowerOffOnlyWhenDrained(old(unschedulable), r, k - |old(log)|);
        assert log[|old(log)|..k] == actions[..k - |old(log)|];
      }
    }

    method ScaleUp(r: Replies) returns (ok: bool)
      modifies this
      ensures var s := Drain.ScaleUp(old(unschedulable), r);
              ok == s.ok && unschedulable == s.cordoned && log == old(log) + s.actions
    {
      hide Drain.Await, Drain.UncordonNode;
      if !r.secret { return false; }
      log := log + [PowerOn(r.power)];
      if !r.power { return false; }
      ghost var actions := [PowerOn(true)] + Drain.Await(r.waits, Ready).1;
      var on := Await(r.waits, Ready);
      assert log == old(log) + actions;
      if !on { return false; }
      ghost var more := actions + Drain.UncordonNode(unschedulable, r.nodeAgain, r.uncordon).actions;
      var back := UncordonNode(r.nodeAgain, r.uncordon);
      assert log == old(log) + more;
      if !back { return false; }
      UncordonActions(old(unschedulable), r.nodeAgain, r.uncordon);
      if !r.nodeLast || !r.annotate { return false; }
      log := log + [CountCycle];
      assert log == old(log) + (more + [CountCycle]);
      return true;
    }
  }
}
