/**
 The doc table and its sort index: positions ordered by grapheme count and then by key, searched
 by halving.
 */
module DocTable {
  import opened Wrappers
  import opened Sorting

  type Key = string

  datatype DocEntry = DocEntry(key: Key, keyLen: nat, checksum: nat, off: nat, len: nat)

  // ---- the order ----

  /** Lexicographic order of keys, character by character. */
  predicate KeyLeq(a: Key, b: Key) {
    a == [] || (b != [] && (a[0] < b[0] || (a[0] == b[0] && KeyLeq(a[1..], b[1..]))))
  }

  lemma {:induction false} KeyTotal(a: Key, b: Key)
    ensures KeyLeq(a, b) || KeyLeq(b, a)
    ensures KeyLeq(a, b) && KeyLeq(b, a) <==> a == b
  {
    if a != [] && b != [] {
      KeyTotal(a[1..], b[1..]);
      assert a == [a[0]] + a[1..] && b == [b[0]] + b[1..];
    }
  }

  lemma {:induction false} KeyTransitive(a: Key, b: Key, c: Key)
    requires KeyLeq(a, b) && KeyLeq(b, c)
    ensures KeyLeq(a, c)
  {
    if a != [] && b != [] && c != [] && a[0] == b[0] == c[0] { KeyTransitive(a[1..], b[1..], c[1..]); }
  }

  /** `a` is a proper start of `b`, or smaller where the two first differ. */
  ghost predicate KeyLess(a: Key, b: Key) {
    a < b || exists p: nat :: DifferAt(a, b, p)
  }

  predicate DifferAt(a: Key, b: Key, p: nat) {
    p < |a| && p < |b| && a[..p] == b[..p] && a[p] < b[p]
  }

  lemma {:induction false} KeyLeqIs(a: Key, b: Key)
    ensures KeyLeq(a, b) <==> a == b || KeyLess(a, b)
  {
    if a != [] && b != [] && a[0] == b[0] {
      KeyLeqIs(a[1..], b[1..]);
      SameHead(a, b);
    } else {
      assert a != [] && b != [] && a[0] < b[0] ==> DifferAt(a, b, 0);
      forall p: nat | DifferAt(a, b, p) ensures p == 0 {
        if p > 0 { AlikeBefore(a, b, p); }
      }
    }
  }

  lemma AlikeBefore(a: Key, b: Key, p: nat)
    requires DifferAt(a, b, p) && p > 0
    ensures a[0] == b[0]
  {
    assert a[..p][0] == b[..p][0];
  }

  /** A character that two keys start with alike does not matter. */
  lemma SameHead(a: Key, b: Key)
    requires a != [] && b != [] && a[0] == b[0]
    ensures a == b <==> a[1..] == b[1..]
    ensures KeyLess(a, b) <==> KeyLess(a[1..], b[1..])
  {
    assert a == [a[0]] + a[1..] && b == [b[0]] + b[1..];
    if p: nat :| DifferAt(a, b, p) {
      assert a[1..][..p - 1] == a[..p][1..] && b[1..][..p - 1] == b[..p][1..];
      assert DifferAt(a[1..], b[1..], p - 1);
    }
    if p: nat :| DifferAt(a[1..], b[1..], p) {
      assert a[..p + 1] == [a[0]] + a[1..][..p] && b[..p + 1] == [b[0]] + b[1..][..p];
      assert DifferAt(a, b, p + 1);
    }
  }

  datatype Ordering = Less | Equal | Greater

  /** Length first, then the key itself. */
  function Compare(aLen: nat, a: Key, bLen: nat, b: Key): Ordering {
    if aLen < bLen then Less
    else if aLen > bLen then Greater
    else if a == b then Equal
    else if KeyLeq(a, b) then Less
    else Greater
  }

  /** Shorter keys come first, and keys of one length in the order of their characters. */
  lemma CompareIs(aLen: nat, a: Key, bLen: nat, b: Key)
    ensures Compare(aLen, a, bLen, b) == Less <==> aLen < bLen || (aLen == bLen && KeyLess(a, b))
    ensures Compare(aLen, a, bLen, b) == Equal <==> aLen == bLen && a == b
  {
    KeyLeqIs(a, b);
    if p: nat :| DifferAt(a, b, p) { assert a != b; }
  }

  /** Position `a` sorts no later than position `b`. */
  predicate NoLater(docs: seq<DocEntry>, a: nat, b: nat) {
    var x, y := At(docs, a), At(docs, b);
    Compare(x.keyLen, x.key, y.keyLen, y.key) != Greater
  }

  function At(docs: seq<DocEntry>, i: nat): DocEntry {
    if i < |docs| then docs[i] else DocEntry([], 0, 0, 0, 0)
  }

  function Order(docs: seq<DocEntry>): (leq: (nat, nat) -> bool)
    ensures forall a, b :: leq(a, b) == NoLater(docs, a, b)
  {
    (a: nat, b: nat) => NoLater(docs, a, b)
  }

  lemma OrderIsTotal(docs: seq<DocEntry>)
    ensures Total(Order(docs))
  {
    var leq := Order(docs);
    forall a: nat, b: nat ensures leq(a, b) || leq(b, a) {
      KeyTotal(At(docs, a).key, At(docs, b).key);
    }
    forall a: nat, b: nat, c: nat | leq(a, b) && leq(b, c) ensures leq(a, c) {
      CompareTransitive(At(docs, a), At(docs, b), At(docs, c));
    }
  }

  lemma CompareTransitive(x: DocEntry, y: DocEntry, z: DocEntry)
    requires Compare(x.keyLen, x.key, y.keyLen, y.key) != Greater
             && Compare(y.keyLen, y.key, z.keyLen, z.key) != Greater
    ensures Compare(x.keyLen, x.key, z.keyLen, z.key) != Greater
  {
    KeyTotal(x.key, y.key);
    KeyTotal(y.key, z.key);
    KeyTotal(x.key, z.key);
    if KeyLeq(x.key, y.key) && KeyLeq(y.key, z.key) { KeyTransitive(x.key, y.key, z.key); }
  }

  // ---- the index ----

  ghost predicate UniqueKeys(docs: seq<DocEntry>) {
    forall i, j :: 0 <= i < j < |docs| ==> docs[i].key != docs[j].key
  }

  function Upto(n: nat): (r: seq<nat>)
    ensures |r| == n && forall k :: 0 <= k < n ==> r[k] == k
  {
    seq(n, k => k)
  }

  function BuildSortIndex(docs: seq<DocEntry>): seq<nat> {
    Sort(Order(docs), Upto(|docs|))
  }

  /** Every position exactly once, in ascending order of the entries. */
  ghost predicate SortIndexOk(docs: seq<DocEntry>, index: seq<nat>) {
    && |index| == |docs| && (forall k :: 0 <= k < |index| ==> index[k] < |docs|)
    && (forall i :: 0 <= i < |docs| ==> i in index)
    && (forall j, k :: 0 <= j < k < |index| ==> Before(docs, index[j], index[k]))
  }

  /** Position `a` sorts strictly before position `b`. */
  predicate Before(docs: seq<DocEntry>, a: nat, b: nat)
    requires a < |docs| && b < |docs|
  {
    Compare(docs[a].keyLen, docs[a].key, docs[b].keyLen, docs[b].key) == Less
  }

  /** With unique keys the built index is a strictly ordered permutation of the positions. */
  lemma SortIndexIs(docs: seq<DocEntry>)
    requires UniqueKeys(docs)
    ensures SortIndexOk(docs, BuildSortIndex(docs))
  {
    var leq, all, index := Order(docs), Upto(|docs|), BuildSortIndex(docs);
    OrderIsTotal(docs);
    SortIs(leq, all);
    forall k | 0 <= k < |index| ensures index[k] < |docs| {
      InBoth(index, all, index[k]);
    }
    forall i | 0 <= i < |docs| ensures i in index {
      assert all[i] == i;
      InBoth(index, all, i);
    }
    NoRepeats(index, all);
    forall j, k | 0 <= j < k < |index| ensures Before(docs, index[j], index[k]) {
      assert leq(index[j], index[k]);
    }
  }

  /** Binary search through the index: some position exactly when that document has the key. */
  method FindIndex(docs: seq<DocEntry>, index: seq<nat>, graphemes: Key -> nat, key: Key) returns (found: Option<nat>)
    requires SortIndexOk(docs, index) && forall i :: 0 <= i < |docs| ==> docs[i].keyLen == graphemes(docs[i].key)
    ensures found.Some? ==> found.value < |docs| && docs[found.value].key == key
    ensures found.None? ==> forall i :: 0 <= i < |docs| ==> docs[i].key != key
  {
    var keyLen := graphemes(key);
    var lo, hi := 0, |index|;
    while lo < hi
      invariant 0 <= lo <= hi <= |index|
      invariant forall k :: 0 <= k < lo ==> docs[index[k]].key != key
      invariant forall k :: hi <= k < |index| ==> docs[index[k]].key != key
    {
      var mid := (lo + hi) / 2;
      var d := docs[index[mid]];
      match Compare(d.keyLen, d.key, keyLen, key) {
        case Equal => return Some(index[mid]);
        case Less =>
          forall k | 0 <= k <= mid ensures docs[index[k]].key != key { NotBelow(docs, index, k, mid, keyLen, key); }
          lo := mid + 1;
        case Greater =>
          forall k | mid <= k < |index| ensures docs[index[k]].key != key {
            NotAbove(docs, index, mid, k, keyLen, key);
          }
          hi := mid;
      }
    }
    forall i | 0 <= i < |docs| ensures docs[i].key != key {
      assert i in index;
    }
    return None;
  }

  lemma NotBelow(docs: seq<DocEntry>, index: seq<nat>, k: nat, mid: nat, keyLen: nat, key: Key)
    requires SortIndexOk(docs, index) && k <= mid < |index|
             && Compare(docs[index[mid]].keyLen, docs[index[mid]].key, keyLen, key) == Less
    ensures Compare(docs[index[k]].keyLen, docs[index[k]].key, keyLen, key) == Less
  {
    if k < mid {
      var x, y, z := docs[index[k]], docs[index[mid]], DocEntry(key, keyLen, 0, 0, 0);
      assert Before(docs, index[k], index[mid]);
      CompareTransitive(x, y, z);
      if x.keyLen == keyLen && x.key == key { KeyTotal(x.key, y.key); }
    }
  }

  lemma NotAbove(docs: seq<DocEntry>, index: seq<nat>, mid: nat, k: nat, keyLen: nat, key: Key)
    requires SortIndexOk(docs, index) && mid <= k < |index|
             && Compare(docs[index[mid]].keyLen, docs[index[mid]].key, keyLen, key) == Greater
    ensures Compare(docs[index[k]].keyLen, docs[index[k]].key, keyLen, key) == Greater
  {
    if mid < k {
      var x, y, z := docs[index[mid]], docs[index[k]], DocEntry(key, keyLen, 0, 0, 0);
      assert Before(docs, index[mid], index[k]);
      KeyTotal(x.key, y.key);
      KeyTotal(x.key, z.key);
      KeyTotal(y.key, z.key);
      if KeyLeq(x.key, y.key) && KeyLeq(y.key, z.key) { KeyTransitive(x.key, y.key, z.key); }
    }
  }
}
