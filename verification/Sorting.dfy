/** Sorting by a comparison: a permutation, in order. */
module Sorting {

  ghost predicate Total<T(!new)>(leq: (T, T) -> bool) {
    && (forall a, b :: leq(a, b) || leq(b, a))
    && (forall a, b, c :: leq(a, b) && leq(b, c) ==> leq(a, c))
  }

  ghost predicate Sorted<T>(leq: (T, T) -> bool, s: seq<T>) {
    forall i, j :: 0 <= i < j < |s| ==> leq(s[i], s[j])
  }

  function InsertSorted<T>(leq: (T, T) -> bool, x: T, s: seq<T>): seq<T> {
    if s == [] || leq(x, s[0]) then [x] + s else [s[0]] + InsertSorted(leq, x, s[1..])
  }

  function Sort<T>(leq: (T, T) -> bool, s: seq<T>): seq<T> {
    if s == [] then [] else InsertSorted(leq, s[0], Sort(leq, s[1..]))
  }

  lemma {:induction false} InsertedMultiset<T>(leq: (T, T) -> bool, x: T, s: seq<T>)
    ensures multiset(InsertSorted(leq, x, s)) == multiset(s) + multiset{x}
  {
    if s != [] && !leq(x, s[0]) {
      InsertedMultiset(leq, x, s[1..]);
      assert s == [s[0]] + s[1..];
    }
  }

  lemma {:induction false} InsertSortedIs<T(!new)>(leq: (T, T) -> bool, x: T, s: seq<T>)
    requires Total(leq) && Sorted(leq, s)
    ensures Sorted(leq, InsertSorted(leq, x, s))
    ensures multiset(InsertSorted(leq, x, s)) == multiset(s) + multiset{x}
  {
    InsertedMultiset(leq, x, s);
    var r := InsertSorted(leq, x, s);
    if s == [] || leq(x, s[0]) {
      forall i, j | 0 <= i < j < |r| ensures leq(r[i], r[j]) {
        if i == 0 { assert r[j] == s[j - 1] && (j > 1 ==> leq(s[0], s[j - 1])); }
      }
    } else {
      var t := InsertSorted(leq, x, s[1..]);
      assert Sorted(leq, s[1..]);
      InsertSortedIs(leq, x, s[1..]);
      InsertMembers(leq, x, s[1..]);
      forall k | 0 <= k < |t| ensures leq(s[0], t[k]) {
        if t[k] != x {
          var m :| 0 <= m < |s[1..]| && s[1..][m] == t[k];
          assert leq(s[0], s[m + 1]);
        }
      }
    }
  }

  lemma {:induction false} SortIs<T(!new)>(leq: (T, T) -> bool, s: seq<T>)
    requires Total(leq)
    ensures Sorted(leq, Sort(leq, s)) && multiset(Sort(leq, s)) == multiset(s) && |Sort(leq, s)| == |s|
  {
    if s != [] {
      SortIs(leq, s[1..]);
      InsertSortedIs(leq, s[0], Sort(leq, s[1..]));
      assert s == [s[0]] + s[1..];
    }
    assert |multiset(Sort(leq, s))| == |Sort(leq, s)| && |multiset(s)| == |s|;
  }

  lemma {:induction false} InsertMembers<T>(leq: (T, T) -> bool, x: T, s: seq<T>)
    ensures forall i :: 0 <= i < |InsertSorted(leq, x, s)| ==>
            InsertSorted(leq, x, s)[i] == x || InsertSorted(leq, x, s)[i] in s
  {
    if s != [] && !leq(x, s[0]) {
      InsertMembers(leq, x, s[1..]);
    }
  }

  lemma InBoth<T>(s: seq<T>, t: seq<T>, x: T)
    requires multiset(s) == multiset(t)
    ensures x in s <==> x in t
  {
    assert x in s <==> x in multiset(s);
    assert x in t <==> x in multiset(t);
  }

  /** A permutation of distinct elements has distinct elements. */
  lemma NoRepeats<T>(s: seq<T>, t: seq<T>)
    requires multiset(s) == multiset(t) && forall i, j :: 0 <= i < j < |t| ==> t[i] != t[j]
    ensures forall i, j :: 0 <= i < j < |s| ==> s[i] != s[j]
  {
    forall i, j | 0 <= i < j < |s| ensures s[i] != s[j] {
      if s[i] == s[j] {
        AtLeastTwice(s, i, j);
        AtMostOnce(t, s[i]);
      }
    }
  }

  lemma AtLeastTwice<T>(s: seq<T>, i: nat, j: nat)
    requires i < j < |s| && s[i] == s[j]
    ensures multiset(s)[s[i]] >= 2
  {
    assert s == s[..i] + [s[i]] + s[i + 1..j] + [s[j]] + s[j + 1..];
  }

  lemma {:induction false} AtMostOnce<T>(t: seq<T>, x: T)
    requires forall i, j :: 0 <= i < j < |t| ==> t[i] != t[j]
    ensures multiset(t)[x] <= 1
  {
    if t != [] {
      assert t == [t[0]] + t[1..];
      AtMostOnce(t[1..], x);
      if t[0] == x { assert x !in t[1..]; }
    }
  }

  ghost predicate StrictlyBy<T>(key: T -> nat, s: seq<T>) {
    forall i, j :: 0 <= i < j < |s| ==> key(s[i]) < key(s[j])
  }

  /** There is only one way to list given elements in strictly ascending order. */
  lemma {:induction false} AscendingUnique<T>(key: T -> nat, s: seq<T>, t: seq<T>)
    requires StrictlyBy(key, s) && StrictlyBy(key, t) && (forall x :: x in s ==> x in t) && forall x :: x in t ==>
             x in s
    ensures s == t
  {
    assert t != [] ==> t[0] in t;
    if s != [] {
      assert s[0] in t;
      assert t[0] in s;
      var i :| 0 <= i < |t| && t[i] == s[0];
      var j :| 0 <= j < |s| && s[j] == t[0];
      assert s[0] == t[0];
      forall x | x in s[1..] ensures x in t[1..] { assert x in t; }
      forall x | x in t[1..] ensures x in s[1..] {
        assert x in s;
      }
      AscendingUnique(key, s[1..], t[1..]);
    }
  }

  /** Sorting by a key that tells the elements apart lists them in strictly ascending order. */
  lemma SortByKey<T(!new)>(key: T -> nat, s: seq<T>)
    requires forall i, j :: 0 <= i < j < |s| ==> key(s[i]) != key(s[j])
    ensures StrictlyBy(key, Sort(KeyOrder(key), s)) && forall x :: x in Sort(KeyOrder(key), s) <==> x in s
  {
    var leq, r := KeyOrder(key), Sort(KeyOrder(key), s);
    SortIs(leq, s);
    NoRepeats(r, s);
    forall x ensures x in r <==> x in s { InBoth(r, s, x); }
    forall i, j | 0 <= i < j < |r| ensures key(r[i]) < key(r[j]) {
      assert leq(r[i], r[j]) && r[i] in r && r[j] in r;
      var k :| 0 <= k < |s| && s[k] == r[i];
      var m :| 0 <= m < |s| && s[m] == r[j];
      assert k != m;
    }
  }

  function KeyOrder<T(!new)>(key: T -> nat): (leq: (T, T) -> bool)
    ensures forall a, b :: leq(a, b) == (key(a) <= key(b))
  {
    (a: T, b: T) => key(a) <= key(b)
  }
}
