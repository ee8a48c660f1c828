/** Lists of lists, laid end to end. */
module Lists {
  function Flatten<X>(groups: seq<seq<X>>): seq<X> {
    if groups == [] then [] else groups[0] + Flatten(groups[1..])
  }

  lemma {:induction false} FlattenOne<X>(groups: seq<seq<X>>, g: seq<X>)
    ensures Flatten(groups + [g]) == Flatten(groups) + g
  {
    if groups == [] {
      assert groups + [g] == [g] && Flatten([g]) == g + Flatten([]);
    } else {
      assert (groups + [g])[1..] == groups[1..] + [g];
      FlattenOne(groups[1..], g);
    }
  }

  /** Where group `b` starts. */
  function StartOf<X>(groups: seq<seq<X>>, b: nat): nat
    requires b <= |groups|
  {
    |Flatten(groups[..b])|
  }

  lemma StartNext<X>(groups: seq<seq<X>>, b: nat)
    requires b < |groups|
    ensures StartOf(groups, b + 1) == StartOf(groups, b) + |groups[b]|
  {
    assert groups[..b + 1] == groups[..b] + [groups[b]];
    FlattenOne(groups[..b], groups[b]);
  }

  /** Each group is the stretch from its start to the next group's. */
  lemma {:induction false} FlattenAt<X>(groups: seq<seq<X>>, b: nat)
    requires b < |groups|
    ensures StartOf(groups, b) + |groups[b]| <= |Flatten(groups)|
    ensures Flatten(groups)[StartOf(groups, b)..StartOf(groups, b) + |groups[b]|] == groups[b]
  {
    if b > 0 {
      FlattenAt(groups[1..], b - 1);
      assert groups[..b] == [groups[0]] + groups[1..][..b - 1];
      assert groups[..b][1..] == groups[1..][..b - 1];
    }
  }
}
