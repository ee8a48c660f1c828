/** Cutting a list into groups on the go: an item either joins the open group or opens the next one. */
module Cutting {
  import opened Lists

  /** Whether an item is cut off from the open group. */
  type Rule<!X> = (seq<X>, X) -> bool

  predicate CutBefore<X>(cut: Rule<X>, groups: seq<seq<X>>, x: X) {
    groups == [] || cut(groups[|groups| - 1], x)
  }

  /** The groups that are complete when `x` is added. */
  function Complete<X>(cut: Rule<X>, groups: seq<seq<X>>, x: X): seq<seq<X>> {
    if CutBefore(cut, groups, x) then groups else groups[..|groups| - 1]
  }

  /** The group that `x` joins. */
  function Joined<X>(cut: Rule<X>, groups: seq<seq<X>>, x: X): seq<X> {
    if CutBefore(cut, groups, x) then [] else groups[|groups| - 1]
  }

  predicate NoneEmpty<X>(groups: seq<seq<X>>) {
    forall b :: 0 <= b < |groups| ==> groups[b] != []
  }

  function Added<X>(cut: Rule<X>, groups: seq<seq<X>>, x: X): seq<seq<X>> {
    Complete(cut, groups, x) + [Joined(cut, groups, x) + [x]]
  }

  /** The first `k` items in their order, cut by the rule alone. */
  function Groups<X>(cut: Rule<X>, xs: seq<X>, k: nat): (groups: seq<seq<X>>)
    requires k <= |xs|
    ensures NoneEmpty(groups) && (groups == [] <==> k == 0)
  {
    if k == 0 then [] else Added(cut, Groups(cut, xs, k - 1), xs[k - 1])
  }

  /** The items since the last cut when item `k` comes. */
  function Since<X>(cut: Rule<X>, xs: seq<X>, k: nat): seq<X>
    requires k < |xs|
  {
    Joined(cut, Groups(cut, xs, k), xs[k])
  }

  lemma AddedIsAll<X>(cut: Rule<X>, groups: seq<seq<X>>, xs: seq<X>, k: nat)
    requires 0 < k <= |xs| && Flatten(groups) == xs[..k - 1]
    ensures Flatten(Added(cut, groups, xs[k - 1])) == xs[..k]
  {
    var x := xs[k - 1];
    FlattenOne(Complete(cut, groups, x), Joined(cut, groups, x) + [x]);
    if !CutBefore(cut, groups, x) {
      var front := groups[..|groups| - 1];
      assert groups == front + [groups[|groups| - 1]];
      FlattenOne(front, groups[|groups| - 1]);
      assert Flatten(front) + (groups[|groups| - 1] + [x]) == Flatten(groups) + [x];
    }
  }

  /** The groups are all the items in their order. */
  lemma {:induction false} GroupsAreAll<X>(cut: Rule<X>, xs: seq<X>, k: nat)
    requires k <= |xs|
    ensures Flatten(Groups(cut, xs, k)) == xs[..k]
  {
    if k > 0 {
      GroupsAreAll(cut, xs, k - 1);
      AddedIsAll(cut, Groups(cut, xs, k - 1), xs, k);
    }
  }

  /** Group `b` starts with an item that the one before did not take. */
  predicate CutFor<X>(cut: Rule<X>, groups: seq<seq<X>>, b: nat) {
    0 < b < |groups| && groups[b] != [] && cut(groups[b - 1], groups[b][0])
  }

  predicate CutsNeeded<X>(cut: Rule<X>, groups: seq<seq<X>>) {
    forall b :: 0 < b < |groups| ==> CutFor(cut, groups, b)
  }

  lemma AddedNeeded<X>(cut: Rule<X>, groups: seq<seq<X>>, x: X)
    requires NoneEmpty(groups) && CutsNeeded(cut, groups)
    ensures CutsNeeded(cut, Added(cut, groups, x))
  {
    var now := Added(cut, groups, x);
    forall b | 0 < b < |now| ensures CutFor(cut, now, b) {
      if b < |groups| { assert CutFor(cut, groups, b); }
    }
  }

  /** No cut is made without need. */
  lemma {:induction false} CutsAreNeeded<X>(cut: Rule<X>, xs: seq<X>, k: nat)
    requires k <= |xs|
    ensures CutsNeeded(cut, Groups(cut, xs, k))
  {
    if k > 0 {
      CutsAreNeeded(cut, xs, k - 1);
      AddedNeeded(cut, Groups(cut, xs, k - 1), xs[k - 1]);
    }
  }

  /** Item `k - 1` ends the last group of the first `k` items. */
  lemma LastGroup<X>(cut: Rule<X>, xs: seq<X>, k: nat)
    requires 0 < k <= |xs|
    ensures Groups(cut, xs, k)
            == Complete(cut, Groups(cut, xs, k - 1), xs[k - 1]) + [Since(cut, xs, k - 1) + [xs[k - 1]]]
  {
  }

  /** Every group ends in an item that came to the ones before it in the group. */
  lemma {:induction false} GroupIsSince<X>(cut: Rule<X>, xs: seq<X>, k: nat, b: nat) returns (j: nat)
    requires k <= |xs| && b < |Groups(cut, xs, k)|
    ensures j < k && Groups(cut, xs, k)[b] == Since(cut, xs, j) + [xs[j]]
  {
    LastGroup(cut, xs, k);
    j := k - 1;
    if b < |Complete(cut, Groups(cut, xs, k - 1), xs[k - 1])| {
      j := GroupIsSince(cut, xs, k - 1, b);
    }
  }

  /** A group only ever gains items at its end. */
  lemma AddedKeeps<X>(cut: Rule<X>, groups: seq<seq<X>>, x: X, b: nat)
    requires b < |groups|
    ensures b < |Added(cut, groups, x)| && groups[b] <= Added(cut, groups, x)[b]
  {
  }

  /** What a group has at some time it has at the end: the items before `j` and `xs[j]` stay together. */
  lemma {:induction false} SinceIsInGroup<X>(cut: Rule<X>, xs: seq<X>, k: nat, j: nat) returns (b: nat)
    requires j < k <= |xs|
    ensures b < |Groups(cut, xs, k)| && Since(cut, xs, j) + [xs[j]] <= Groups(cut, xs, k)[b]
  {
    if j == k - 1 {
      LastGroup(cut, xs, k);
      b := |Groups(cut, xs, k)| - 1;
    } else {
      b := SinceIsInGroup(cut, xs, k - 1, j);
      StillInGroup(cut, xs, k, b, Since(cut, xs, j) + [xs[j]]);
    }
  }

  lemma StillInGroup<X>(cut: Rule<X>, xs: seq<X>, k: nat, b: nat, items: seq<X>)
    requires 0 < k <= |xs| && b < |Groups(cut, xs, k - 1)| && items <= Groups(cut, xs, k - 1)[b]
    ensures b < |Groups(cut, xs, k)| && items <= Groups(cut, xs, k)[b]
  {
    AddedKeeps(cut, Groups(cut, xs, k - 1), xs[k - 1], b);
  }
}
