/** What it means that a list is another one filtered. */
module Sequences {

  /** r is what f makes of the elements of s at the places at: those where p holds, in order. */
  ghost predicate IsFilteredAt<A, B>(r: seq<B>, s: seq<A>, p: A -> bool, f: A -> B, at: seq<nat>) {
    && |at| == |r|
    && (forall j :: 0 <= j < |at| ==> at[j] < |s| && p(s[at[j]]) && r[j] == f(s[at[j]]))
    && (forall i, j :: 0 <= i < j < |at| ==> at[i] < at[j])
    && forall k :: 0 <= k < |s| && p(s[k]) ==> k in at
  }

  /** r is what f makes of the elements of s for which p holds, each once and in order. */
  ghost predicate IsFiltered<A, B>(r: seq<B>, s: seq<A>, p: A -> bool, f: A -> B) {
    exists at: seq<nat> :: IsFilteredAt(r, s, p, f, at)
  }

  lemma FilteredEmpty<A, B>(p: A -> bool, f: A -> B)
    ensures IsFiltered([], [], p, f)
  {
    assert IsFilteredAt([], [], p, f, []);
  }

  lemma DroppedBehind<A, B>(r: seq<B>, s: seq<A>, p: A -> bool, f: A -> B, x: A, at: seq<nat>)
    requires IsFilteredAt(r, s, p, f, at) && !p(x)
    ensures IsFilteredAt(r, s + [x], p, f, at)
  {
    assert forall k :: 0 <= k < |s| ==> (s + [x])[k] == s[k];
  }

  lemma KeptBehind<A, B>(r: seq<B>, s: seq<A>, p: A -> bool, f: A -> B, x: A, at: seq<nat>)
    requires IsFilteredAt(r, s, p, f, at) && p(x)
    ensures IsFilteredAt(r + [f(x)], s + [x], p, f, at + [|s|])
  {
    var t, places := s + [x], at + [|s|];
    assert forall k :: 0 <= k < |s| ==> t[k] == s[k];
    forall k | 0 <= k < |t| && p(t[k]) ensures k in places {
      if k == |s| { assert places[|at|] == k; }
    }
  }

  lemma FilteredAppend<A, B>(r: seq<B>, s: seq<A>, p: A -> bool, f: A -> B, x: A)
    requires IsFiltered(r, s, p, f)
    ensures IsFiltered(if p(x) then r + [f(x)] else r, s + [x], p, f)
  {
    var at: seq<nat> :| IsFilteredAt(r, s, p, f, at);
    hide IsFilteredAt;
    if p(x) { KeptBehind(r, s, p, f, x, at); } else { DroppedBehind(r, s, p, f, x, at); }
  }

  /** One step of a filter that goes through the list from the front. */
  lemma FilteredLast<A, B>(whole: seq<B>, rest: seq<B>, s: seq<A>, p: A -> bool, f: A -> B)
    requires s != [] && IsFiltered(rest, s[..|s| - 1], p, f)
    requires p(s[|s| - 1]) ==> whole == rest + [f(s[|s| - 1])]
    requires !p(s[|s| - 1]) ==> whole == rest
    ensures IsFiltered(whole, s, p, f)
  {
    var init, last := s[..|s| - 1], s[|s| - 1];
    assert s == init + [last];
    hide IsFiltered;
    FilteredAppend(rest, init, p, f, last);
  }
}
