/** The two extreme orders in which a plan places the pods. */
module Ordering {
  import opened Kube
  import opened PodRequests

  /** A pod that prefers to be near others. */
  predicate IsFollower(p: Pod) {
    p.preferredPodAffinity != []
  }

  /** Larger CPU request first, then larger memory request. */
  predicate Larger(x: Requests, y: Requests) {
    if x.cpu != y.cpu then x.cpu > y.cpu else x.memory > y.memory
  }

  /** The comparison handed to the stable sort. */
  predicate Before(x: Pod, y: Pod, partnersFirst: bool) {
    if IsFollower(x) != IsFollower(y) then IsFollower(x) != partnersFirst
    else Larger(EffectiveRequests(x), EffectiveRequests(y))
  }

  /** Puts x in front of the first pod that does not have to come before it. */
  function Insert(x: Pod, s: seq<Pod>, partnersFirst: bool): seq<Pod> {
    if s == [] then [x]
    else if Before(s[0], x, partnersFirst) then [s[0]] + Insert(x, s[1..], partnersFirst)
    else [x] + s
  }

  /** The stable sort. */
  function OrderForPlacement(pods: seq<Pod>, partnersFirst: bool): seq<Pod> {
    if pods == [] then [] else Insert(pods[0], OrderForPlacement(pods[1..], partnersFirst), partnersFirst)
  }

  // ---------------------------------------------------------------- it is a stable sort

  ghost predicate IsOrdered(s: seq<Pod>, partnersFirst: bool) {
    forall i, j :: 0 <= i < j < |s| ==> !Before(s[j], s[i], partnersFirst)
  }

  /** Pods the comparison cannot tell from x, in order. */
  ghost function Alike(x: Pod, s: seq<Pod>): seq<Pod> {
    if s == [] then [] else (if IsAlike(x, s[0]) then [s[0]] else []) + Alike(x, s[1..])
  }

  predicate IsAlike(x: Pod, y: Pod) {
    IsFollower(x) == IsFollower(y) && EffectiveRequests(x) == EffectiveRequests(y)
  }

  lemma AlikeMeansNeitherFirst(x: Pod, y: Pod, partnersFirst: bool)
    requires IsAlike(x, y)
    ensures !Before(x, y, partnersFirst) && !Before(y, x, partnersFirst)
  {
  }

  lemma AlikeIsTransitive(x: Pod, y: Pod, z: Pod)
    requires IsAlike(x, y) && IsAlike(x, z)
    ensures IsAlike(y, z)
  {
  }

  lemma {:induction false} InsertMultiset(x: Pod, s: seq<Pod>, partnersFirst: bool)
    ensures multiset(Insert(x, s, partnersFirst)) == multiset([x]) + multiset(s)
  {
    hide Before;
    if s != [] && Before(s[0], x, partnersFirst) {
      InsertMultiset(x, s[1..], partnersFirst);
      assert s == [s[0]] + s[1..];
    }
  }

  lemma BeforeIsAsymmetric(x: Pod, y: Pod, partnersFirst: bool)
    requires Before(x, y, partnersFirst)
    ensures !Before(y, x, partnersFirst)
  {
  }

  lemma NotBeforeIsTransitive(x: Pod, y: Pod, z: Pod, partnersFirst: bool)
    requires !Before(x, y, partnersFirst) && !Before(y, z, partnersFirst)
    ensures !Before(x, z, partnersFirst)
  {
  }

  lemma {:induction false} InsertOrdered(x: Pod, s: seq<Pod>, partnersFirst: bool)
    requires IsOrdered(s, partnersFirst)
    ensures IsOrdered(Insert(x, s, partnersFirst), partnersFirst)
  {
    hide Before;
    if s != [] && Before(s[0], x, partnersFirst) {
      InsertOrdered(x, s[1..], partnersFirst);
      var t := Insert(x, s[1..], partnersFirst);
      InsertMultiset(x, s[1..], partnersFirst);
      BeforeIsAsymmetric(s[0], x, partnersFirst);
      forall j | 0 <= j < |t| ensures !Before(t[j], s[0], partnersFirst) {
        assert t[j] in multiset(t);
        assert t[j] == x || t[j] in s[1..];
      }
    } else if s != [] {
      forall j | 0 <= j < |s| ensures !Before(s[j], x, partnersFirst) {
        if j > 0 { NotBeforeIsTransitive(s[j], s[0], x, partnersFirst); }
      }
    }
  }

  lemma {:induction false} InsertAlike(x: Pod, s: seq<Pod>, partnersFirst: bool, y: Pod)
    ensures Alike(y, Insert(x, s, partnersFirst)) == Alike(y, [x]) + Alike(y, s)
  {
    hide Before, IsAlike;
    assert [x][1..] == [];
    if s != [] && Before(s[0], x, partnersFirst) {
      var rest := s[1..];
      InsertAlike(x, rest, partnersFirst, y);
      if IsAlike(y, x) && IsAlike(y, s[0]) {
        AlikeIsTransitive(y, x, s[0]);
        AlikeMeansNeitherFirst(x, s[0], partnersFirst);
      }
      assert ([s[0]] + Insert(x, rest, partnersFirst))[1..] == Insert(x, rest, partnersFirst);
    } else {
      assert ([x] + s)[1..] == s;
    }
  }

  lemma {:induction false} OrderIsPermutation(pods: seq<Pod>, partnersFirst: bool)
    ensures multiset(OrderForPlacement(pods, partnersFirst)) == multiset(pods)
  {
    hide Insert;
    if pods != [] {
      OrderIsPermutation(pods[1..], partnersFirst);
      InsertMultiset(pods[0], OrderForPlacement(pods[1..], partnersFirst), partnersFirst);
      assert pods == [pods[0]] + pods[1..];
    }
  }

  lemma {:induction false} OrderIsOrdered(pods: seq<Pod>, partnersFirst: bool)
    ensures IsOrdered(OrderForPlacement(pods, partnersFirst), partnersFirst)
  {
    hide Before, Insert;
    if pods != [] {
      OrderIsOrdered(pods[1..], partnersFirst);
      InsertOrdered(pods[0], OrderForPlacement(pods[1..], partnersFirst), partnersFirst);
    }
  }

  lemma {:induction false} OrderKeepsAlike(pods: seq<Pod>, partnersFirst: bool, y: Pod)
    ensures Alike(y, OrderForPlacement(pods, partnersFirst)) == Alike(y, pods)
  {
    hide Insert, IsAlike;
    if pods != [] {
      OrderKeepsAlike(pods[1..], partnersFirst, y);
      InsertAlike(pods[0], OrderForPlacement(pods[1..], partnersFirst), partnersFirst, y);
      assert [pods[0]][1..] == [];
    }
  }

  /** Ordered, a permutation, and pods the comparison cannot tell apart keep their order. */
  lemma {:induction false} OrderIsStableSort(pods: seq<Pod>, partnersFirst: bool, y: Pod)
    ensures IsOrdered(OrderForPlacement(pods, partnersFirst), partnersFirst)
    ensures multiset(OrderForPlacement(pods, partnersFirst)) == multiset(pods)
    ensures Alike(y, OrderForPlacement(pods, partnersFirst)) == Alike(y, pods)
  {
    OrderIsOrdered(pods, partnersFirst);
    OrderIsPermutation(pods, partnersFirst);
    OrderKeepsAlike(pods, partnersFirst, y);
  }

  lemma OrderOfTwo(x: Pod, y: Pod, partnersFirst: bool)
    requires !Before(y, x, partnersFirst)
    ensures (x.preferredPodAffinity == []) != (y.preferredPodAffinity == []) ==>
              (x.preferredPodAffinity == []) == partnersFirst
    ensures (x.preferredPodAffinity == []) == (y.preferredPodAffinity == []) ==>
              var r, q := EffectiveRequests(x), EffectiveRequests(y);
              r.cpu > q.cpu || (r.cpu == q.cpu && r.memory >= q.memory)
  {
    hide EffectiveRequests;
  }

  /** Pods that prefer no company come before those that do, or after them in the opposite order; within
      either kind the larger CPU request comes first, and of equal ones the larger memory request. */
  lemma {:induction false} LargestComesFirst(pods: seq<Pod>, partnersFirst: bool, i: nat, j: nat)
    requires i < j < |pods|
    ensures var s := OrderForPlacement(pods, partnersFirst);
            && |s| == |pods|
            && ((s[i].preferredPodAffinity == []) != (s[j].preferredPodAffinity == []) ==>
                  (s[i].preferredPodAffinity == []) == partnersFirst)
            && ((s[i].preferredPodAffinity == []) == (s[j].preferredPodAffinity == []) ==>
                  var r, q := EffectiveRequests(s[i]), EffectiveRequests(s[j]);
                  r.cpu > q.cpu || (r.cpu == q.cpu && r.memory >= q.memory))
  {
    OrderIsPermutation(pods, partnersFirst);
    OrderIsOrdered(pods, partnersFirst);
    hide OrderForPlacement, Before, EffectiveRequests;
    var s := OrderForPlacement(pods, partnersFirst);
    assert |s| == |multiset(s)| == |multiset(pods)| == |pods|;
    OrderOfTwo(s[i], s[j], partnersFirst);
  }

  // ---------------------------------------------------------------- the two orders

  function Select(pods: seq<Pod>, followers: bool): seq<Pod> {
    if pods == [] then []
    else if IsFollower(pods[0]) == followers then [pods[0]] + Select(pods[1..], followers)
    else Select(pods[1..], followers)
  }

  ghost predicate AllFollowers(s: seq<Pod>, followers: bool) {
    forall i :: 0 <= i < |s| ==> IsFollower(s[i]) == followers
  }

  /** One block of the plan order: followers or partners, largest first. */
  function Block(pods: seq<Pod>, followers: bool): seq<Pod> {
    OrderForPlacement(Select(pods, followers), true)
  }

  lemma InsertStep(x: Pod, y: Pod, rest: seq<Pod>, partnersFirst: bool)
    ensures Insert(x, [y] + rest, partnersFirst)
         == if Before(y, x, partnersFirst) then [y] + Insert(x, rest, partnersFirst) else [x] + ([y] + rest)
  {
    hide Before;
    assert ([y] + rest)[1..] == rest;
  }

  /** Among pods of one kind the two orders compare alike. */
  lemma BeforeInBlock(y: Pod, x: Pod, partnersFirst: bool)
    requires IsFollower(x) == IsFollower(y)
    ensures Before(y, x, partnersFirst) == Before(y, x, true)
  {
  }

  lemma ConcatAssociative<T>(x: seq<T>, y: seq<T>, z: seq<T>)
    ensures x + (y + z) == (x + y) + z
  {
  }

  lemma HeadAndTail<T>(s: seq<T>, t: seq<T>)
    requires s != []
    ensures s == [s[0]] + s[1..] && s + t == [s[0]] + (s[1..] + t)
  {
  }

  lemma {:induction false} InsertIntoFirst(x: Pod, p: seq<Pod>, f: seq<Pod>, partnersFirst: bool)
    requires AllFollowers(p, !partnersFirst) && AllFollowers(f, partnersFirst) && IsFollower(x) == !partnersFirst
    ensures Insert(x, p + f, partnersFirst) == Insert(x, p, true) + f
  {
    hide EffectiveRequests;
    if p == [] {
      assert p + f == f;
    } else {
      var y, rest := p[0], p[1..];
      InsertIntoFirst(x, rest, f, partnersFirst);
      BeforeInBlock(y, x, partnersFirst);
      InsertBoth(x, p, f, partnersFirst);
    }
  }

  lemma InsertBoth(x: Pod, p: seq<Pod>, f: seq<Pod>, partnersFirst: bool)
    requires p != [] && Before(p[0], x, partnersFirst) == Before(p[0], x, true)
    requires Insert(x, p[1..] + f, partnersFirst) == Insert(x, p[1..], true) + f
    ensures Insert(x, p + f, partnersFirst) == Insert(x, p, true) + f
  {
    hide Before, Insert;
    var y, rest := p[0], p[1..];
    HeadAndTail(p, f);
    InsertStep(x, y, rest + f, partnersFirst);
    InsertStep(x, y, rest, true);
    ConcatAssociative([y], Insert(x, rest, true), f);
    ConcatAssociative([x], p, f);
  }

  lemma {:induction false} InsertIntoSecond(x: Pod, p: seq<Pod>, f: seq<Pod>, partnersFirst: bool)
    requires AllFollowers(p, !partnersFirst) && AllFollowers(f, partnersFirst) && IsFollower(x) == partnersFirst
    ensures Insert(x, p + f, partnersFirst) == p + Insert(x, f, true)
  {
    hide EffectiveRequests;
    if p == [] {
      assert p + f == f;
      SameOrderWithin(x, f, partnersFirst);
    } else {
      assert p + f == [p[0]] + (p[1..] + f) && (p + f)[1..] == p[1..] + f;
      InsertIntoSecond(x, p[1..], f, partnersFirst);
      assert Before(p[0], x, partnersFirst);
      assert Insert(x, p + f, partnersFirst) == [p[0]] + (p[1..] + Insert(x, f, true));
    }
  }

  lemma {:induction false} SameOrderWithin(x: Pod, f: seq<Pod>, partnersFirst: bool)
    requires AllFollowers(f, IsFollower(x))
    ensures Insert(x, f, partnersFirst) == Insert(x, f, true)
  {
    hide EffectiveRequests;
    if f != [] { SameOrderWithin(x, f[1..], partnersFirst); }
  }

  lemma {:induction false} BlockIsUniform(pods: seq<Pod>, followers: bool)
    ensures AllFollowers(Select(pods, followers), followers)
    ensures AllFollowers(Block(pods, followers), followers)
  {
    SelectIsUniform(pods, followers);
    var s := Select(pods, followers);
    var b := Block(pods, followers);
    OrderIsPermutation(s, true);
    hide OrderForPlacement, Select, IsFollower;
    forall i | 0 <= i < |b| ensures IsFollower(b[i]) == followers {
      assert b[i] in multiset(b);
      assert b[i] in s;
    }
  }

  lemma {:induction false} SelectIsUniform(pods: seq<Pod>, followers: bool)
    ensures AllFollowers(Select(pods, followers), followers)
  {
    if pods != [] { SelectIsUniform(pods[1..], followers); }
  }

  /** Both orders consist of the same two blocks, in opposite sequence. */
  lemma {:induction false} OrdersAreSwappedBlocks(pods: seq<Pod>)
    ensures OrderForPlacement(pods, true) == Block(pods, false) + Block(pods, true)
    ensures OrderForPlacement(pods, false) == Block(pods, true) + Block(pods, false)
  {
    if pods != [] {
      var x, rest := pods[0], pods[1..];
      OrdersAreSwappedBlocks(rest);
      BlockIsUniform(rest, false);
      BlockIsUniform(rest, true);
      BlockStep(pods);
      hide OrderForPlacement, Block;
      var p, f := Block(rest, false), Block(rest, true);
      if IsFollower(x) {
        InsertIntoSecond(x, p, f, true);
        InsertIntoFirst(x, f, p, false);
      } else {
        InsertIntoFirst(x, p, f, true);
        InsertIntoSecond(x, f, p, false);
      }
    }
  }

  lemma BlockStep(pods: seq<Pod>)
    requires pods != []
    ensures OrderForPlacement(pods, true) == Insert(pods[0], OrderForPlacement(pods[1..], true), true)
    ensures OrderForPlacement(pods, false) == Insert(pods[0], OrderForPlacement(pods[1..], false), false)
    ensures forall followers ::
              Block(pods, followers) == (if IsFollower(pods[0]) == followers
                then Insert(pods[0], Block(pods[1..], followers), true)
                                         else Block(pods[1..], followers))
  {
    hide Insert;
    forall followers: bool
      ensures Block(pods, followers) == (if IsFollower(pods[0]) == followers
               then Insert(pods[0], Block(pods[1..], followers), true)
                                         else Block(pods[1..], followers))
    {
      if IsFollower(pods[0]) == followers {
        var s := Select(pods, followers);
        assert s == [pods[0]] + Select(pods[1..], followers) && s[1..] == Select(pods[1..], followers);
      }
    }
  }
}
