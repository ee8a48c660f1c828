/**
 Listing the documents a filter keeps: either straight through the keys the filter names, or by a
 sweep over all bundles. Both give the same list.
 */
module ListIndexes {
  import opened Wrappers
  import opened Sorting
  import opened DocTable
  import S = Sweep

  // ---- filters ----

  /** A rule set: selectors that must all match, and, if there are any, words one of which must be the key. */
  datatype WordFilter<Sel> = WordFilter(css: seq<Sel>, words: set<Key>)
  datatype Filter<Sel> = Filter(incl: WordFilter<Sel>, excl: WordFilter<Sel>)

  /** `selects(sel)`: the selector finds something in the document at hand. */
  predicate AllSelect<Sel>(css: seq<Sel>, selects: Sel -> bool) {
    |css| == 0 || (selects(css[0]) && AllSelect(css[1..], selects))
  }

  predicate Matches<Sel>(w: WordFilter<Sel>, key: Key, selects: Sel -> bool) {
    AllSelect(w.css, selects) && (w.words == {} || key in w.words)
  }

  predicate IsEmpty<Sel>(w: WordFilter<Sel>) {
    |w.css| == 0 && w.words == {}
  }

  predicate Keep<Sel>(f: Filter<Sel>, key: Key, selects: Sel -> bool) {
    (IsEmpty(f.incl) || Matches(f.incl, key, selects)) && !(!IsEmpty(f.excl) && Matches(f.excl, key, selects))
  }

  /** The keys an entry must have one of to be kept, if the include rules say so. */
  function IncludeKeys<Sel>(f: Filter<Sel>): Option<set<Key>> {
    if f.incl.words == {} then None else Some(f.incl.words)
  }

  /** The verdict from the key alone, where no selector is involved. */
  function KeepKey<Sel>(f: Filter<Sel>, key: Key): Option<bool> {
    if |f.incl.css| > 0 || |f.excl.css| > 0 then None
    else Some((f.incl.words == {} || key in f.incl.words) && !(f.excl.words != {} && key in f.excl.words))
  }

  /** When the key decides, it decides as the document would; and a kept entry has one of the include keys. */
  lemma KeyDecides<Sel>(f: Filter<Sel>, key: Key, selects: Sel -> bool)
    ensures KeepKey(f, key).Some? <==> f.incl.css == [] && f.excl.css == []
    ensures KeepKey(f, key).Some? ==> KeepKey(f, key).value == Keep(f, key, selects)
    ensures IncludeKeys(f).None? <==> f.incl.words == {}
    ensures IncludeKeys(f).Some? && Keep(f, key, selects) ==> key in IncludeKeys(f).value
  {
  }

  // ---- the archive ----

  /** What listing needs of an archive: its rows, its sort index, its bundle bounds, and selector answers. */
  datatype Archive<!Sel> = Archive(docs: seq<DocEntry>, index: seq<nat>, graphemes: Key -> nat, bounds: seq<nat>,
    selects: (nat, Sel) -> bool)

  ghost predicate ArchiveOk<Sel>(a: Archive<Sel>) {
    && UniqueKeys(a.docs) && SortIndexOk(a.docs, a.index)
       && (forall i :: 0 <= i < |a.docs| ==> a.docs[i].keyLen == a.graphemes(a.docs[i].key))
    && |a.bounds| > 0 && a.bounds[0] == 0 && a.bounds[|a.bounds| - 1] == |a.docs|
    && forall b :: 0 < b < |a.bounds| ==> a.bounds[b - 1] <= a.bounds[b]
  }

  function Selects<Sel>(a: Archive<Sel>, i: nat): (Sel -> bool) {
    (s: Sel) => a.selects(i, s)
  }

  /** Whether document `i` is kept, by its key and its content. */
  predicate Keeps<Sel>(a: Archive<Sel>, f: Filter<Sel>, i: nat) {
    i < |a.docs| && Keep(f, a.docs[i].key, Selects(a, i))
  }

  /** The kept documents from position `from` up to `to`, in order. */
  function KeptIn<Sel>(a: Archive<Sel>, f: Filter<Sel>, from: nat, to: nat): seq<nat>
    decreases if from < to then to - from else 0
  {
    if from >= to then [] else (if Keeps(a, f, from) then [from] else []) + KeptIn(a, f, from + 1, to)
  }

  function Self(x: nat): nat { x }

  lemma {:induction false} KeptInIs<Sel>(a: Archive<Sel>, f: Filter<Sel>, from: nat, to: nat)
    ensures StrictlyBy(Self, KeptIn(a, f, from, to))
    ensures forall i :: i in KeptIn(a, f, from, to) <==> from <= i < to && Keeps(a, f, i)
    decreases if from < to then to - from else 0
  {
    if from < to {
      KeptInIs(a, f, from + 1, to);
      var rest := KeptIn(a, f, from + 1, to);
      forall k | 0 <= k < |rest| ensures from < rest[k] { assert rest[k] in rest; }
    }
  }

  function Truncate(s: seq<nat>, n: nat): seq<nat> {
    if n < |s| then s[..n] else s
  }

  /** The list either way: the first `firstN` kept documents, in document order. */
  function Listed<Sel>(a: Archive<Sel>, f: Filter<Sel>, firstN: nat): seq<nat> {
    Truncate(KeptIn(a, f, 0, |a.docs|), firstN)
  }

  lemma {:induction false} AllSelectIs<Sel>(css: seq<Sel>, selects: Sel -> bool)
    ensures AllSelect(css, selects) <==> forall k :: 0 <= k < |css| ==> selects(css[k])
  {
    if css != [] {
      AllSelectIs(css[1..], selects);
      if forall k :: 0 <= k < |css| ==> selects(css[k]) {
        assert forall k :: 0 <= k < |css[1..]| ==> selects(css[1..][k]);
      }
      assert forall k :: 0 < k < |css| ==> css[k] == css[1..][k - 1];
    }
  }

  /** A document is kept if every include rule takes it, and not every rule of an exclude that has any. */
  lemma KeepsIs<Sel>(a: Archive<Sel>, f: Filter<Sel>, i: nat)
    requires i < |a.docs|
    ensures var key := a.docs[i].key;
            Keeps(a, f, i) <==>
              && (forall k :: 0 <= k < |f.incl.css| ==> a.selects(i, f.incl.css[k]))
              && (f.incl.words == {} || key in f.incl.words)
              && !(  (f.excl.css != [] || f.excl.words != {})
                  && (forall k :: 0 <= k < |f.excl.css| ==> a.selects(i, f.excl.css[k]))
                  && (f.excl.words == {} || key in f.excl.words))
  {
    AllSelectIs(f.incl.css, Selects(a, i));
    AllSelectIs(f.excl.css, Selects(a, i));
  }

  /**
   The list is in document order and holds kept documents only; one that is kept is missing only behind
   `firstN` others.
   */
  lemma ListedIs<Sel>(a: Archive<Sel>, f: Filter<Sel>, firstN: nat)
    ensures var list := Listed(a, f, firstN);
            && |list| <= firstN && (forall j, k :: 0 <= j < k < |list| ==> list[j] < list[k])
            && (forall k :: 0 <= k < |list| ==> list[k] < |a.docs| && Keeps(a, f, list[k]))
            && forall i :: 0 <= i < |a.docs| && Keeps(a, f, i) && i !in list ==>
                 |list| == firstN && forall k :: 0 <= k < |list| ==> list[k] < i
  {
    KeptInIs(a, f, 0, |a.docs|);
    var all, list := KeptIn(a, f, 0, |a.docs|), Listed(a, f, firstN);
    assert list <= all;
    forall k | 0 <= k < |list| ensures list[k] < |a.docs| && Keeps(a, f, list[k]) { assert list[k] in all; }
    forall i | 0 <= i < |a.docs| && Keeps(a, f, i) && i !in list
        ensures |list| == firstN && forall k :: 0 <= k < |list| ==> list[k] < i {
      assert i in all;
      var m :| 0 <= m < |all| && all[m] == i;
      forall k | 0 <= k < |list| ensures list[k] < i {
        assert list[k] == all[k] && list[k] in list;
        assert StrictlyBy(Self, all);
      }
    }
  }

  // ---- the keyed fast path ----

  /**
   Resolves the include keys one by one, in whatever order the hash set gives them, sorts the
   positions and keeps those the filter keeps.
   */
  method KeyedList<Sel>(a: Archive<Sel>, f: Filter<Sel>, firstN: nat) returns (indexes: seq<nat>)
    requires ArchiveOk(a) && IncludeKeys(f).Some?
    ensures indexes == Listed(a, f, firstN)
  {
    var keys := IncludeKeys(f).value;
    var positions := Resolve(a, keys);
    SortByKey(Self, positions);
    var sorted := Sort(KeyOrder(Self), positions);
    indexes := [];
    for k := 0 to |sorted|
      invariant StrictlyBy(Self, indexes)
      invariant forall i :: i in indexes <==> i in sorted[..k] && Keeps(a, f, i)
    {
      var i := sorted[k];
      assert i in positions;
      KeyDecides(f, a.docs[i].key, Selects(a, i));
      var byKey := KeepKey(f, a.docs[i].key);
      var keep := if byKey.Some? then byKey.value else Keep(f, a.docs[i].key, Selects(a, i));
      assert sorted[..k + 1] == sorted[..k] + [i];
      if keep {
        forall j | 0 <= j < |indexes| ensures indexes[j] < i {
          assert indexes[j] in indexes;
        }
        indexes := indexes + [i];
      }
    }
    assert sorted[..|sorted|] == sorted;
    KeptInIs(a, f, 0, |a.docs|);
    forall i | i in KeptIn(a, f, 0, |a.docs|) ensures i in indexes {
      KeyDecides(f, a.docs[i].key, Selects(a, i));
    }
    AscendingUnique(Self, indexes, KeptIn(a, f, 0, |a.docs|));
    indexes := Truncate(indexes, firstN);
  }

  /** The positions of the documents that have one of the keys, each once. */
  method Resolve<Sel>(a: Archive<Sel>, keys: set<Key>) returns (positions: seq<nat>)
    requires ArchiveOk(a)
    ensures forall i: nat :: i in positions <==> i < |a.docs| && a.docs[i].key in keys
    ensures forall i, j :: 0 <= i < j < |positions| ==> positions[i] != positions[j]
  {
    positions := [];
    var rest := keys;
    while rest != {}
      invariant rest <= keys
      invariant forall i: nat :: i in positions <==> i < |a.docs| && a.docs[i].key in keys - rest
      invariant forall i, j :: 0 <= i < j < |positions| ==> positions[i] != positions[j]
      decreases |rest|
    {
      var key :| key in rest;
      var found := FindIndex(a.docs, a.index, a.graphemes, key);
      if found.Some? {
        forall i: nat | i < |a.docs| && a.docs[i].key == key ensures i == found.value {}
        positions := positions + [found.value];
      }
      rest := rest - {key};
    }
  }

  // ---- the sweep over bundles ----

  /** What the workers collect from the bundles they claimed, in the order they claimed them. */
  function KeptInBundles<Sel>(a: Archive<Sel>, f: Filter<Sel>, bundles: seq<nat>): seq<nat>
    requires forall k :: 0 <= k < |bundles| ==> bundles[k] + 1 < |a.bounds|
  {
    if bundles == [] then []
    else KeptIn(a, f, a.bounds[bundles[0]], a.bounds[bundles[0] + 1]) + KeptInBundles(a, f, bundles[1..])
  }

  lemma {:induction false} KeptInBundlesIs<Sel>(a: Archive<Sel>, f: Filter<Sel>, bundles: seq<nat>, i: nat)
    requires forall k :: 0 <= k < |bundles| ==> bundles[k] + 1 < |a.bounds|
    ensures i in KeptInBundles(a, f, bundles) <==>
            Keeps(a, f, i) && exists b :: b in bundles && a.bounds[b] <= i < a.bounds[b + 1]
  {
    if bundles != [] {
      KeptInIs(a, f, a.bounds[bundles[0]], a.bounds[bundles[0] + 1]);
      KeptInBundlesIs(a, f, bundles[1..], i);
      if b :| b in bundles && a.bounds[b] <= i < a.bounds[b + 1] {
        assert b == bundles[0] || b in bundles[1..];
      }
    }
  }

  lemma {:induction false} BoundsGrow<Sel>(a: Archive<Sel>, j: nat, k: nat)
    requires ArchiveOk(a) && j <= k < |a.bounds|
    ensures a.bounds[j] <= a.bounds[k]
  {
    if j < k {
      BoundsGrow(a, j, k - 1);
      assert a.bounds[k - 1] <= a.bounds[k];
    }
  }

  /** Bundles do not overlap. */
  lemma OneBundle<Sel>(a: Archive<Sel>, b: nat, d: nat, i: nat)
    requires ArchiveOk(a) && b + 1 < |a.bounds| && d + 1 < |a.bounds|
    requires a.bounds[b] <= i < a.bounds[b + 1] && a.bounds[d] <= i < a.bounds[d + 1]
    ensures b == d
  {
    if b < d { BoundsGrow(a, b + 1, d); }
    if d < b { BoundsGrow(a, d + 1, b); }
  }

  /** Every position lies in some bundle. */
  lemma {:induction false} SomeBundle<Sel>(a: Archive<Sel>, i: nat, k: nat) returns (b: nat)
    requires ArchiveOk(a) && k < |a.bounds| && i < a.bounds[k]
    ensures b + 1 < |a.bounds| && a.bounds[b] <= i < a.bounds[b + 1]
  {
    if i < a.bounds[k - 1] { b := SomeBundle(a, i, k - 1); } else { b := k - 1; }
  }

  lemma {:induction false} KeptInBundlesDistinct<Sel>(a: Archive<Sel>, f: Filter<Sel>, bundles: seq<nat>)
    requires ArchiveOk(a) && forall k :: 0 <= k < |bundles| ==> bundles[k] + 1 < |a.bounds|
    requires forall p: nat :: S.Count(bundles, p) <= 1
    ensures forall i, j :: 0 <= i < j < |KeptInBundles(a, f, bundles)| ==>
            KeptInBundles(a, f, bundles)[i] != KeptInBundles(a, f, bundles)[j]
  {
    if bundles != [] {
      var b, rest := bundles[0], bundles[1..];
      forall p: nat ensures S.Count(rest, p) <= 1 { assert S.Count(bundles, p) <= 1; }
      KeptInBundlesDistinct(a, f, rest);
      assert S.Count(bundles, b) <= 1;
      S.CountIn(rest, b);
      var here, there := KeptIn(a, f, a.bounds[b], a.bounds[b + 1]), KeptInBundles(a, f, rest);
      KeptInIs(a, f, a.bounds[b], a.bounds[b + 1]);
      forall x | x in here ensures x !in there {
        KeptInBundlesIs(a, f, rest, x);
        if x in there {
          var d :| d in rest && a.bounds[d] <= x < a.bounds[d + 1];
          OneBundle(a, b, d, x);
        }
      }
      DistinctConcat(here, there);
    }
  }

  lemma DistinctConcat(s: seq<nat>, t: seq<nat>)
    requires (forall i, j :: 0 <= i < j < |s| ==> s[i] != s[j]) && (forall i, j :: 0 <= i < j < |t| ==> t[i] != t[j])
    requires forall x :: x in s ==> x !in t
    ensures forall i, j :: 0 <= i < j < |s + t| ==> (s + t)[i] != (s + t)[j]
  {
    forall i, j | 0 <= i < j < |s + t| ensures (s + t)[i] != (s + t)[j] {
      if i < |s| <= j { assert s[i] in s && t[j - |s|] in t; }
    }
  }

  /**
   However the workers shared the bundles out, collecting, sorting and truncating gives the same
   list as the keyed fast path.
   */
  lemma BundleSweepLists<Sel>(a: Archive<Sel>, f: Filter<Sel>, c: S.Config, run: seq<S.State>, firstN: nat)
    requires ArchiveOk(a) && S.Run(c, run) && S.Over(run[|run| - 1])
    requires c == S.Config(|a.bounds| - 1, 1, _ => true)
    ensures var bundles := S.Folded(run[|run| - 1].workers);
            && (forall k :: 0 <= k < |bundles| ==> bundles[k] + 1 < |a.bounds|)
            && Truncate(Sort(KeyOrder(Self), KeptInBundles(a, f, bundles)), firstN) == Listed(a, f, firstN)
  {
    S.SweepOutcome(c, run);
    var bundles := S.Folded(run[|run| - 1].workers);
    forall k | 0 <= k < |bundles| ensures bundles[k] + 1 < |a.bounds| { S.CountIn(bundles, bundles[k]); }
    KeptInBundlesDistinct(a, f, bundles);
    var all, target := KeptInBundles(a, f, bundles), KeptIn(a, f, 0, |a.docs|);
    SortByKey(Self, all);
    KeptInIs(a, f, 0, |a.docs|);
    forall i: nat | true ensures i in all <==> i in target {
      KeptInBundlesIs(a, f, bundles, i);
      if Keeps(a, f, i) {
        var b := SomeBundle(a, i, |a.bounds| - 1);
        S.CountIn(bundles, b);
      }
    }
    AscendingUnique(Self, Sort(KeyOrder(Self), all), target);
  }
}
