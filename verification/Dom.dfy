/**
 A document: the node blob and the text pool its string nodes point into. The pool only grows, so
 every range ever handed out stays valid and disjoint from the others.
 */
module Dom {
  import opened Wrappers
  import opened LittleEndian
  import opened NodeLayout
  import opened Forest
  import opened ForestEdits
  import opened Links
  import opened Nodes
  import opened TextBlocks

  /** String node `i` points at a slice of the pool. */
  predicate TextIn(a: Arena, n: nat, i: nat)
    requires i < |a|
  {
    a[i].body.Text? ==> a[i].body.start <= a[i].body.end <= n
  }

  function RangeOf(r: Rec): Range
    requires r.body.Text?
  {
    Range(r.body.start, r.body.end)
  }

  predicate NonEmptyText(a: Arena, i: nat)
    requires i < |a|
  {
    a[i].body.Text? && a[i].body.start < a[i].body.end
  }

  ghost predicate TextsApart(a: Arena) {
    forall i, j :: 0 <= i < j < |a| && NonEmptyText(a, i) && NonEmptyText(a, j) ==> Apart(RangeOf(a[i]), RangeOf(a[j]))
  }

  ghost predicate TextsOk(a: Arena, n: nat) {
    (forall i :: 0 <= i < |a| ==> TextIn(a, n, i)) && TextsApart(a)
  }

  function TextOf(a: Arena, pool: Bytes, i: nat): Bytes
    requires i < |a| && a[i].body.Text? && TextIn(a, |pool|, i)
  {
    pool[a[i].body.start..a[i].body.end]
  }

  /** Link edits and pool growth leave the ranges alone. */
  lemma TextsKept(a: Arena, b: Arena, n: nat, n': nat)
    requires TextsOk(a, n) && SamePayloads(a, b) && n <= n' && |b| == |a|
    ensures TextsOk(b, n')
  {
    forall i | 0 <= i < |b| ensures b[i].body.Text? == a[i].body.Text? && (b[i].body.Text? ==> b[i].body == a[i].body) {
      assert Payload(b[i]) == Payload(a[i]);
    }
    forall i | 0 <= i < |b| ensures TextIn(b, n', i) {
      assert TextIn(a, n, i);
    }
    forall i, j | 0 <= i < j < |b| && NonEmptyText(b, i) && NonEmptyText(b, j)
        ensures Apart(RangeOf(b[i]), RangeOf(b[j])) {
      assert NonEmptyText(a, i) && NonEmptyText(a, j);
    }
  }

  /** A range freshly pushed at the end of the pool overlaps no other. */
  lemma TextPushed(a: Arena, b: Arena, n: nat, i: nat, len: nat)
    requires TextsOk(a, n) && i < |a| == |b| && b == a[i := a[i].(body := Text(n, n + len))]
    ensures TextsOk(b, n + len)
  {
    var m := n + len;
    forall k | 0 <= k < |b| ensures TextIn(b, m, k) {
      assert TextIn(a, n, k);
    }
    forall k, j | 0 <= k < j < |b| && NonEmptyText(b, k) && NonEmptyText(b, j)
        ensures Apart(RangeOf(b[k]), RangeOf(b[j])) {
      assert TextIn(a, n, k) && TextIn(a, n, j);
      if k != i && j != i { assert NonEmptyText(a, k) && NonEmptyText(a, j); }
    }
  }

  /** A new blank node adds the empty range or none. */
  lemma TextsGrown(a: Arena, b: Arena, n: nat, tag: byte)
    requires TextsOk(a, n) && SamePayloads(a, b) && |b| == |a| + 1
    requires Payload(b[|a|]) == Blank(tag, None, None, None)
    ensures TextsOk(b, n)
  {
    TextsKept(a, b[..|a|], n, n) by {
      assert forall m :: 0 <= m < |a| ==> Payload(b[..|a|][m]) == Payload(a[m]);
    }
    forall i | 0 <= i < |b| ensures TextIn(b, n, i) {
      if i < |a| { assert TextIn(b[..|a|], n, i); }
    }
    forall i, j | 0 <= i < j < |b| && NonEmptyText(b, i) && NonEmptyText(b, j)
        ensures Apart(RangeOf(b[i]), RangeOf(b[j])) {
      assert NonEmptyText(b[..|a|], i) && NonEmptyText(b[..|a|], j);
    }
  }

  class DomInner {
    const nodes: Nodes
    var strings: Bytes

    ghost predicate Valid()
      reads this, nodes
    {
      nodes.Rooted() && TextsOk(nodes.recs, |strings|) && |strings| < U32
    }

    /** Takes over a blob and the pool its string nodes point into. */
    constructor (ns: Nodes, pool: Bytes)
      requires ns.Rooted() && TextsOk(ns.recs, |pool|) && |pool| < U32
      ensures Valid() && nodes == ns && strings == pool
    {
      nodes, strings := ns, pool;
    }

    /** Appends to the pool and returns where the text went. */
    method Push(text: Bytes) returns (start: nat, end: nat)
      requires |strings| + |text| < U32
      modifies this`strings
      ensures strings == old(strings) + text && start == old(|strings|) && end == |strings|
    {
      start := |strings|;
      strings := strings + text;
      end := start + |text|;
    }

    /** The old text stays in the pool, unreferenced; every other node reads as before. */
    method ReplaceText(i: nat, text: Bytes)
      requires Valid() && i < |nodes.recs| && nodes.recs[i].body.Text? && |strings| + |text| < U32
      modifies this`strings, nodes`bytes, nodes`recs
      ensures Valid() && strings == old(strings) + text && nodes.doc == old(nodes.doc)
              && nodes.width == old(nodes.width)
      ensures nodes.recs == old(nodes.recs)[i := old(nodes.recs[i]).(body := Text(old(|strings|), |strings|))]
      ensures TextIn(nodes.recs, |strings|, i) && TextOf(nodes.recs, strings, i) == text
    {
      ghost var a, n := nodes.recs, |strings|;
      var start, end := Push(text);
      nodes.SetTextRange(i, start, end);
      TextPushed(a, nodes.recs, n, i, |text|);
      BodyRelinked(a, nodes.recs, nodes.doc, i);
    }

    /** A new text or comment node becomes the last child of `i`. */
    method AppendTextChild(tag: byte, i: nat, text: Bytes) returns (n: nat)
      requires Valid() && IsStringTag(tag) && i < |nodes.recs| && nodes.recs[i].body.Branch?
      requires |nodes.recs| < Sentinel(nodes.width) && |strings| + |text| < U32
      modifies this`strings, nodes`bytes, nodes`recs, nodes`doc
      ensures Valid() && nodes.doc == AddLeaf(old(nodes.doc), i, |old(nodes.doc).kids[i]|)
      ensures n == old(|nodes.recs|) && |nodes.recs| == n + 1 && SamePayloads(old(nodes.recs), nodes.recs)
      ensures nodes.recs[n].tag == tag && nodes.recs[n].body.Text? && TextIn(nodes.recs, |strings|, n)
      ensures strings == old(strings) + text && TextOf(nodes.recs, strings, n) == text
    {
      ghost var a, pool := nodes.recs, strings;
      var start, end := Push(text);
      n := nodes.AddAsLastChild(i, tag);
      TextsGrown(a, nodes.recs, |pool|, tag);
      assert Payload(nodes.recs[n]) == Blank(tag, None, None, None);
      ghost var b := nodes.recs;
      nodes.SetTextRange(n, start, end);
      TextPushed(b, nodes.recs, |pool|, n, |text|);
      BodyRelinked(b, nodes.recs, nodes.doc, n);
    }

    /**
     Every non-empty range in slot order, unlinked string nodes included: disjoint ranges inside
     the pool, as the block cutter needs them, and none of them missing.
     */
    method TextRanges() returns (ranges: seq<Range>, ghost slots: Ids)
      requires Valid()
      ensures NodeRanges(ranges, |strings|) && |slots| == |ranges|
      ensures forall k :: 0 <= k < |slots| ==>
              slots[k] < |nodes.recs| && NonEmptyText(nodes.recs, slots[k])
              && ranges[k] == RangeOf(nodes.recs[slots[k]])
      ensures forall j, k :: 0 <= j < k < |slots| ==> slots[j] < slots[k]
      ensures forall i :: 0 <= i < |nodes.recs| && NonEmptyText(nodes.recs, i) ==> i in slots
    {
      ranges, slots := [], [];
      for i := 0 to nodes.Len()
        invariant |slots| == |ranges|
        invariant forall k :: 0 <= k < |slots| ==>
                  slots[k] < i && NonEmptyText(nodes.recs, slots[k]) && ranges[k] == RangeOf(nodes.recs[slots[k]])
        invariant forall j, k :: 0 <= j < k < |slots| ==> slots[j] < slots[k]
        invariant forall j :: 0 <= j < i && NonEmptyText(nodes.recs, j) ==> j in slots
      {
        if nodes.IsStringNode(i) {
          var start, end := nodes.TextRange(i);
          if start < end {
            ranges, slots := ranges + [Range(start, end)], slots + [i];
          }
        }
      }
      forall k | 0 <= k < |ranges| ensures ranges[k].start < ranges[k].end <= |strings| {
        assert TextIn(nodes.recs, |strings|, slots[k]);
      }
    }
  }

  /** The forest does not depend on a string node's text range. */
  lemma BodyRelinked(a: Arena, b: Arena, f: Forest, i: nat)
    requires Linked(a, f) && i < |a| == |b| && a[i].body.Text? && b[i].body.Text?
             && b == a[i := a[i].(body := b[i].body)]
    ensures Linked(b, f)
  {
    forall p | 0 <= p < |b| ensures ListOk(b, p, f.kids[p]) && RecOk(b[p], |b|) {
      assert ListOk(a, p, f.kids[p]) && RecOk(a[p], |a|);
      forall k | 0 <= k < |f.kids[p]| ensures EntryOk(b, f.kids[p], k) { assert EntryOk(a, f.kids[p], k); }
    }
  }
}
