/** Deduplication by key: of the items with the same key only the first is kept. */
module FirstWins {
  import opened Lists

  /** The items whose key is neither in `seen` nor among the items before them. */
  function Fresh<X, K(==)>(items: seq<X>, key: X -> K, seen: set<K>): seq<X> {
    if items == [] then []
    else if key(items[0]) in seen then Fresh(items[1..], key, seen)
    else [items[0]] + Fresh(items[1..], key, seen + {key(items[0])})
  }

  ghost function Keys<X, K>(items: seq<X>, key: X -> K): set<K> {
    set x | x in items :: key(x)
  }

  lemma {:induction false} FreshConcat<X, K>(s: seq<X>, t: seq<X>, key: X -> K, seen: set<K>)
    ensures Fresh(s + t, key, seen) == Fresh(s, key, seen) + Fresh(t, key, seen + Keys(s, key))
  {
    if s == [] {
      assert s + t == t && seen + Keys(s, key) == seen;
    } else {
      var now := if key(s[0]) in seen then seen else seen + {key(s[0])};
      assert (s + t)[1..] == s[1..] + t;
      FreshConcat(s[1..], t, key, now);
      assert now + Keys(s[1..], key) == seen + Keys(s, key) by {
        assert s == [s[0]] + s[1..];
        assert Keys(s, key) == {key(s[0])} + Keys(s[1..], key);
      }
    }
  }

  /** Item `i` is the first with its key, and that key was not seen before. */
  ghost predicate IsFirst<X, K>(items: seq<X>, key: X -> K, seen: set<K>, i: nat) {
    i < |items| && key(items[i]) !in seen && forall h :: 0 <= h < i ==> key(items[h]) != key(items[i])
  }

  /** One more item. */
  lemma FreshOne<X, K>(items: seq<X>, x: X, key: X -> K, seen: set<K>)
    ensures Fresh(items + [x], key, seen) == Fresh(items, key, seen) + if key(x) in seen + Keys(items, key) then []
            else [x]
    ensures Keys(items + [x], key) == Keys(items, key) + {key(x)}
  {
    FreshConcat(items, [x], key, seen);
    var all := seen + Keys(items, key);
    assert [x][1..] == [];
    assert Fresh([x], key, all) == if key(x) in all then [] else [x];
  }

  /** Exactly the first occurrences are kept, in their order, each once. */
  lemma {:induction false} FreshIs<X, K>(items: seq<X>, key: X -> K, seen: set<K>) returns (at: seq<nat>)
    ensures |at| == |Fresh(items, key, seen)|
    ensures forall j :: 0 <= j < |at| ==> IsFirst(items, key, seen, at[j]) && items[at[j]] == Fresh(items, key, seen)[j]
    ensures forall j, k :: 0 <= j < k < |at| ==> at[j] < at[k]
    ensures forall i :: IsFirst(items, key, seen, i) ==> i in at
  {
    if items == [] {
      at := [];
    } else {
      var n := |items| - 1;
      var before := items[..n];
      assert items == before + [items[n]];
      at := FreshIs(before, key, seen);
      FreshOne(before, items[n], key, seen);
      assert forall i: nat :: i < n ==> (IsFirst(items, key, seen, i) <==> IsFirst(before, key, seen, i));
      var isNew := key(items[n]) !in seen + Keys(before, key);
      assert IsFirst(items, key, seen, n) <==> isNew by {
        assert forall h :: 0 <= h < n ==> before[h] in before && key(before[h]) in Keys(before, key);
      }
      if isNew {
        at := at + [n];
      }
    }
  }

  // ---- run by run ----

  /** How many items a run adds behind others. */
  ghost function Added<X, K>(before: seq<X>, run: seq<X>, key: X -> K): nat {
    |Fresh(run, key, Keys(before, key))|
  }

  function NonZero(n: nat): seq<nat> {
    if n > 0 then [n] else []
  }

  /** How many items each run adds, of those that add any. */
  ghost function Sizes<X, K>(runs: seq<seq<X>>, key: X -> K): seq<nat> {
    if runs == [] then []
    else Sizes(runs[..|runs| - 1], key) + NonZero(Added(Flatten(runs[..|runs| - 1]), runs[|runs| - 1], key))
  }

  lemma RunAdded<X, K>(runs: seq<seq<X>>, k: nat, key: X -> K)
    requires k < |runs|
    ensures Flatten(runs[..k + 1]) == Flatten(runs[..k]) + runs[k]
    ensures Sizes(runs[..k + 1], key) == Sizes(runs[..k], key) + NonZero(Added(Flatten(runs[..k]), runs[k], key))
  {
    var now := runs[..k + 1];
    assert now == runs[..k] + [runs[k]] && now[..k] == runs[..k];
    FlattenOne(runs[..k], runs[k]);
  }

  lemma FreshMore<X, K>(all: seq<X>, items: seq<X>, key: X -> K)
    ensures Fresh(all + items, key, {}) == Fresh(all, key, {}) + Fresh(items, key, Keys(all, key))
  {
    FreshConcat(all, items, key, {});
    assert {} + Keys(all, key) == Keys(all, key);
  }

  /** Where no key comes twice everything is kept, and every non-empty run adds all it has. */
  lemma {:induction false} AllFresh<X, K>(items: seq<X>, key: X -> K, seen: set<K>)
    requires forall i, j :: 0 <= i < j < |items| ==> key(items[i]) != key(items[j])
    requires forall i :: 0 <= i < |items| ==> key(items[i]) !in seen
    ensures Fresh(items, key, seen) == items
  {
    if items != [] {
      AllFresh(items[1..], key, seen + {key(items[0])});
    }
  }

  lemma {:induction false} FullSizes<X, K>(runs: seq<seq<X>>, key: X -> K)
    requires var all := Flatten(runs); forall i, j :: 0 <= i < j < |all| ==> key(all[i]) != key(all[j])
    requires forall b :: 0 <= b < |runs| ==> runs[b] != []
    ensures |Sizes(runs, key)| == |runs| && forall b :: 0 <= b < |runs| ==> Sizes(runs, key)[b] == |runs[b]|
  {
    if runs != [] {
      var n := |runs| - 1;
      var before, run := runs[..n], runs[n];
      assert runs == before + [run];
      FlattenOne(before, run);
      var all := Flatten(runs);
      assert forall i :: 0 <= i < |Flatten(before)| ==> Flatten(before)[i] == all[i];
      assert forall i :: 0 <= i < |run| ==> run[i] == all[|Flatten(before)| + i];
      FullSizes(before, key);
      AllFresh(run, key, Keys(Flatten(before), key));
    }
  }
}
