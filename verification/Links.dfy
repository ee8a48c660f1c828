/**
 When an arena of linked records represents a forest, and how the link patches made by each tree
 edit carry that representation over to the edited forest.
 */
module Links {
  import opened Wrappers
  import opened LittleEndian
  import opened NodeLayout
  import opened Forest
  import opened ForestEdits

  // ---- representation ----

  function Head(ks: Ids): Option<nat> {
    if ks == [] then None else Some(ks[0])
  }

  function Foot(ks: Ids): Option<nat> {
    if ks == [] then None else Some(ks[|ks| - 1])
  }

  function Left(ks: Ids, k: nat): Option<nat>
    requires k <= |ks|
  {
    if k == 0 then None else Some(ks[k - 1])
  }

  function Right(ks: Ids, k: nat): Option<nat>
    requires k < |ks|
  {
    if k + 1 == |ks| then None else Some(ks[k + 1])
  }

  predicate EntryOk(a: Arena, ks: Ids, k: nat)
    requires k < |ks|
  {
    ks[k] < |a| && a[ks[k]].prev == Left(ks, k) && a[ks[k]].next == Right(ks, k)
  }

  /** `p`'s first/last pointers and its children's sibling links spell the list `ks`. */
  ghost predicate ListOk(a: Arena, p: nat, ks: Ids)
    requires p < |a|
  {
    && a[p].FirstChild() == Head(ks) && a[p].LastChild() == Foot(ks)
    && forall k :: 0 <= k < |ks| ==> EntryOk(a, ks, k)
  }

  predicate LinkOk(v: Option<nat>, n: nat) {
    v.Some? ==> v.value < n
  }

  predicate RecOk(r: Rec, n: nat) {
    && LinkOk(r.parent, n) && LinkOk(r.prev, n) && LinkOk(r.next, n)
    && LinkOk(r.FirstChild(), n) && LinkOk(r.LastChild(), n)
  }

  ghost predicate InRange(a: Arena) {
    forall i :: 0 <= i < |a| ==> RecOk(a[i], |a|)
  }

  /** The arena spells the forest: parent pointers, child lists both ways, all links in range. */
  ghost predicate Linked(a: Arena, f: Forest) {
    && |a| == |f.kids| && Tidy(f) && InRange(a)
    && (forall i :: 0 <= i < |a| ==> a[i].parent == f.par[i])
    && (forall p :: 0 <= p < |a| ==> ListOk(a, p, f.kids[p]))
  }

  /** Node 0 stands alone: it has no parent and no siblings. */
  ghost predicate Alone(a: Arena, f: Forest) {
    0 < |a| && 0 < |f.par| && f.par[0] == None && a[0].prev == None && a[0].next == None
  }

  /** What a record says apart from its links. */
  function Payload(r: Rec): Rec {
    Rec(r.tag, None, None, None, if r.body.Branch? then r.body.(first := None, last := None) else r.body)
  }

  ghost predicate SamePayloads(a: Arena, b: Arena) {
    |a| <= |b| && forall m :: 0 <= m < |a| ==> Payload(b[m]) == Payload(a[m])
  }

  /** Where an attached node sits: its neighbours, and whether it is first or last below its parent. */
  lemma Neighbours(a: Arena, f: Forest, c: nat)
    requires Linked(a, f) && Attached(f, c)
    ensures var p := f.par[c].value; var ks := f.kids[p]; var k := IndexOf(ks, c);
            && a[c].parent == Some(p) && p < |a| && p != c && a[p].body.Branch?
            && a[c].prev == Left(ks, k) && a[c].next == Right(ks, k)
            && (a[p].FirstChild() == Some(c) <==> k == 0) && (a[p].LastChild() == Some(c) <==> k + 1 == |ks|)
            && Distinct(Left(ks, k), Some(c), Right(ks, k), p)
  {
    var p := f.par[c].value;
    var ks := f.kids[p];
    var k := IndexOf(ks, c);
    assert ListOk(a, p, ks) && EntryOk(a, ks, k) && Kin(f, p, ks) && NoDup(ks);
    assert ChildOk(f, p, ks[k]);
    assert (k > 0 ==> ChildOk(f, p, ks[k - 1])) && (k + 1 < |ks| ==> ChildOk(f, p, ks[k + 1]));
  }

  lemma EndChildren(a: Arena, f: Forest, p: nat)
    requires Linked(a, f) && p < |a|
    ensures a[p].FirstChild() == Head(f.kids[p]) && a[p].LastChild() == Foot(f.kids[p])
    ensures LinkOk(Head(f.kids[p]), |a|) && LinkOk(Foot(f.kids[p]), |a|)
    ensures Head(f.kids[p]) != Some(p) && Foot(f.kids[p]) != Some(p)
    ensures a[p].body.Text? ==> f.kids[p] == []
  {
    var ks := f.kids[p];
    assert ListOk(a, p, ks) && Kin(f, p, ks);
    assert ks != [] ==> ChildOk(f, p, ks[0]) && ChildOk(f, p, ks[|ks| - 1]);
  }

  /** Two adjacent siblings, the node between them and their parent are four different nodes. */
  predicate Distinct(l: Option<nat>, c: Option<nat>, r: Option<nat>, p: nat) {
    && l != Some(p) && c != Some(p) && r != Some(p)
    && (l.Some? ==> l != c && l != r) && (r.Some? ==> r != c)
  }

  // ---- patches ----

  predicate LinksAre(r: Rec, parent: Option<nat>, prev: Option<nat>, next: Option<nat>, first: Option<nat>,
      last: Option<nat>)
  {
    r.parent == parent && r.prev == prev && r.next == next && r.FirstChild() == first && r.LastChild() == last
  }

  function If(b: bool, x: Option<nat>, y: Option<nat>): Option<nat> {
    if b then x else y
  }

  /** A list none of whose nodes had its sibling links patched, under a parent whose ends were not. */
  lemma ListKept(a: Arena, b: Arena, q: nat, ks: Ids)
    requires q < |a| == |b| || q < |a| < |b|
    requires ListOk(a, q, ks) && b[q].FirstChild() == a[q].FirstChild() && b[q].LastChild() == a[q].LastChild()
    requires forall j :: 0 <= j < |ks| && ks[j] < |a| ==>
             b[ks[j]].prev == a[ks[j]].prev && b[ks[j]].next == a[ks[j]].next
    ensures ListOk(b, q, ks)
  {
    forall j | 0 <= j < |ks| ensures EntryOk(b, ks, j) {
      assert EntryOk(a, ks, j);
    }
  }

  // ---- inserting a leaf ----

  predicate InsertedAt(a: Arena, b: Arena, p: nat, l: Option<nat>, r: Option<nat>, m: nat)
    requires m < |a| < |b|
  {
    var n := Some(|a|);
    LinksAre(b[m], a[m].parent, If(r == Some(m), n, a[m].prev), If(l == Some(m), n, a[m].next),
             If(m == p && l == None, n, a[m].FirstChild()), If(m == p && r == None, n, a[m].LastChild()))
  }

  /** `b` is `a` plus one record linked in as child number `k` of `p`. */
  ghost predicate Inserted(a: Arena, b: Arena, p: nat, ks: Ids, k: nat)
    requires k <= |ks|
  {
    var l, r := Left(ks, k), if k < |ks| then Some(ks[k]) else None;
    && |b| == |a| + 1 && LinksAre(b[|a|], Some(p), l, r, None, None)
    && forall m :: 0 <= m < |a| ==> InsertedAt(a, b, p, l, r, m)
  }

  lemma InsertLinked(a: Arena, b: Arena, f: Forest, p: nat, k: nat)
    requires Linked(a, f) && p < |a| && k <= |f.kids[p]| && Inserted(a, b, p, f.kids[p], k)
    ensures Linked(b, AddLeaf(f, p, k))
  {
    AddLeafTidy(f, p, k);
    var g, n, ks := AddLeaf(f, p, k), |a|, f.kids[p];
    var l, r := Left(ks, k), if k < |ks| then Some(ks[k]) else None;
    assert Kin(f, p, ks);
    assert (k > 0 ==> ChildOk(f, p, ks[k - 1])) && (k < |ks| ==> ChildOk(f, p, ks[k]));
    forall q | 0 <= q < |b| ensures ListOk(b, q, g.kids[q]) {
      if q == p {
        InsertedList(a, b, f, p, k);
      } else if q < n {
        assert ListOk(a, q, f.kids[q]) && Kin(f, q, f.kids[q]) && InsertedAt(a, b, p, l, r, q);
        forall j | 0 <= j < |f.kids[q]|
          ensures f.kids[q][j] < n && b[f.kids[q][j]].prev == a[f.kids[q][j]].prev
                  && b[f.kids[q][j]].next == a[f.kids[q][j]].next
        {
          assert ChildOk(f, q, f.kids[q][j]) && InsertedAt(a, b, p, l, r, f.kids[q][j]);
        }
        ListKept(a, b, q, f.kids[q]);
      }
    }
    forall m | 0 <= m < |b| ensures RecOk(b[m], |b|) && b[m].parent == g.par[m] {
      if m < n { assert RecOk(a[m], n) && InsertedAt(a, b, p, l, r, m); }
    }
  }

  lemma InsertAlone(a: Arena, b: Arena, f: Forest, p: nat, k: nat)
    requires Linked(a, f) && Alone(a, f) && p < |a| && k <= |f.kids[p]| && Inserted(a, b, p, f.kids[p], k)
    ensures Alone(b, AddLeaf(f, p, k))
  {
    var ks := f.kids[p];
    assert Kin(f, p, ks) && InsertedAt(a, b, p, Left(ks, k), if k < |ks| then Some(ks[k]) else None, 0);
    assert (k > 0 ==> ChildOk(f, p, ks[k - 1])) && (k < |ks| ==> ChildOk(f, p, ks[k]));
  }

  lemma InsertedList(a: Arena, b: Arena, f: Forest, p: nat, k: nat)
    requires Linked(a, f) && p < |a| && k <= |f.kids[p]| && Inserted(a, b, p, f.kids[p], k)
    ensures ListOk(b, p, Insert(f.kids[p], k, |a|))
  {
    var n, ks := |a|, f.kids[p];
    var l, r := Left(ks, k), if k < |ks| then Some(ks[k]) else None;
    var all := Insert(ks, k, n);
    assert Kin(f, p, ks) && NoDup(ks) && ListOk(a, p, ks) && InsertedAt(a, b, p, l, r, p);
    forall j | 0 <= j < |all| ensures EntryOk(b, all, j) {
      if j != k {
        var i := if j < k then j else j - 1;
        assert all[j] == ks[i] && EntryOk(a, ks, i) && InsertedAt(a, b, p, l, r, ks[i]);
      }
    }
  }

  /** The left neighbour (or, at the front, the parent) comes to point at `n`. */
  function PointLeft(a: Arena, p: nat, l: Option<nat>, n: Option<nat>): Arena
    requires p < |a| && a[p].body.Branch? && LinkOk(l, |a|)
  {
    if l.Some? then a[l.value := a[l.value].(next := n)]
    else a[p := a[p].(body := a[p].body.(first := n))]
  }

  /** The right neighbour (or, at the end, the parent) comes to point at `n`. */
  function PointRight(a: Arena, p: nat, r: Option<nat>, n: Option<nat>): Arena
    requires p < |a| && a[p].body.Branch? && LinkOk(r, |a|)
  {
    if r.Some? then a[r.value := a[r.value].(prev := n)]
    else a[p := a[p].(body := a[p].body.(last := n))]
  }

  /** A blank record appended and pointed at from both sides is a child inserted. */
  lemma InsertPatch(a: Arena, b: Arena, p: nat, l: Option<nat>, r: Option<nat>, tag: byte)
    requires p < |a| && a[p].body.Branch? && LinkOk(l, |a|) && LinkOk(r, |a|) && Distinct(l, None, r, p)
    requires var s := a + [Blank(tag, Some(p), l, r)]; var n := Some(|a|);
             b == PointRight(PointLeft(s, p, l, n), p, r, n) || b == PointLeft(PointRight(s, p, r, n), p, l, n)
    ensures |b| == |a| + 1 && LinksAre(b[|a|], Some(p), l, r, None, None)
    ensures forall m :: 0 <= m < |a| ==> InsertedAt(a, b, p, l, r, m)
    ensures SamePayloads(a, b) && Payload(b[|a|]) == Blank(tag, None, None, None)
  {
  }

  // ---- removing a node ----

  predicate RemovedAt(a: Arena, b: Arena, c: nat, p: nat, l: Option<nat>, r: Option<nat>, m: nat)
    requires m < |a| == |b|
  {
    LinksAre(b[m], If(m == c, None, a[m].parent), If(r == Some(m), l, a[m].prev), If(l == Some(m), r, a[m].next),
             If(m == p && l == None, r, a[m].FirstChild()), If(m == p && r == None, l, a[m].LastChild()))
  }

  /** `b` is `a` with `c` taken out of `p`'s list (`c` keeps its own sibling links). */
  ghost predicate Removed(a: Arena, b: Arena, c: nat, p: nat, ks: Ids, k: nat)
    requires k < |ks|
  {
    |b| == |a| && forall m :: 0 <= m < |a| ==> RemovedAt(a, b, c, p, Left(ks, k), Right(ks, k), m)
  }

  lemma RemoveLinked(a: Arena, b: Arena, f: Forest, c: nat)
    requires Linked(a, f) && Attached(f, c)
    requires var p := f.par[c].value; Removed(a, b, c, p, f.kids[p], IndexOf(f.kids[p], c))
    ensures Linked(b, Detach(f, c))
  {
    DetachTidy(f, c);
    var g, p := Detach(f, c), f.par[c].value;
    var ks, k := f.kids[p], IndexOf(f.kids[p], c);
    var l, r := Left(ks, k), Right(ks, k);
    assert Kin(f, p, ks);
    assert (k > 0 ==> ChildOk(f, p, ks[k - 1])) && (k + 1 < |ks| ==> ChildOk(f, p, ks[k + 1]));
    forall q | 0 <= q < |b| ensures ListOk(b, q, g.kids[q]) {
      if q == p {
        RemovedList(a, b, f, c);
      } else {
        assert ListOk(a, q, f.kids[q]) && Kin(f, q, f.kids[q]) && RemovedAt(a, b, c, p, l, r, q);
        forall j | 0 <= j < |f.kids[q]|
          ensures f.kids[q][j] < |a| && b[f.kids[q][j]].prev == a[f.kids[q][j]].prev
                  && b[f.kids[q][j]].next == a[f.kids[q][j]].next
        {
          assert ChildOk(f, q, f.kids[q][j]) && RemovedAt(a, b, c, p, l, r, f.kids[q][j]);
        }
        ListKept(a, b, q, f.kids[q]);
      }
    }
    forall m | 0 <= m < |b| ensures RecOk(b[m], |b|) && b[m].parent == g.par[m] {
      assert RecOk(a[m], |a|) && RemovedAt(a, b, c, p, l, r, m);
    }
  }

  lemma RemoveAlone(a: Arena, b: Arena, f: Forest, c: nat)
    requires Linked(a, f) && Alone(a, f) && Attached(f, c)
    requires var p := f.par[c].value; Removed(a, b, c, p, f.kids[p], IndexOf(f.kids[p], c))
    ensures Alone(b, Detach(f, c))
  {
    var p := f.par[c].value;
    var ks, k := f.kids[p], IndexOf(f.kids[p], c);
    assert Kin(f, p, ks) && RemovedAt(a, b, c, p, Left(ks, k), Right(ks, k), 0);
    assert (k > 0 ==> ChildOk(f, p, ks[k - 1])) && (k + 1 < |ks| ==> ChildOk(f, p, ks[k + 1]));
  }

  lemma RemovedList(a: Arena, b: Arena, f: Forest, c: nat)
    requires Linked(a, f) && Attached(f, c)
    requires var p := f.par[c].value; Removed(a, b, c, p, f.kids[p], IndexOf(f.kids[p], c))
    ensures ListOk(b, f.par[c].value, Cut(f.kids[f.par[c].value], IndexOf(f.kids[f.par[c].value], c)))
  {
    var p := f.par[c].value;
    var ks, k := f.kids[p], IndexOf(f.kids[p], c);
    var l, r := Left(ks, k), Right(ks, k);
    var all := Cut(ks, k);
    assert Kin(f, p, ks) && NoDup(ks) && ListOk(a, p, ks) && RemovedAt(a, b, c, p, l, r, p);
    forall j | 0 <= j < |all| ensures EntryOk(b, all, j) {
      var i := if j < k then j else j + 1;
      assert all[j] == ks[i] && EntryOk(a, ks, i) && RemovedAt(a, b, c, p, l, r, ks[i]);
    }
  }

  // ---- unwrapping a node ----

  predicate SplicedAt(a: Arena, b: Arena, c: nat, p: nat, l: Option<nat>, r: Option<nat>, cs: Ids, m: nat)
    requires m < |a| == |b|
  {
    var h, z := if cs == [] then r else Head(cs), if cs == [] then l else Foot(cs);
    if m == c then LinksAre(b[m], None, None, None, None, None)
    else LinksAre(b[m], If(m in cs, Some(p), a[m].parent),
                  If(Head(cs) == Some(m), l, If(r == Some(m), z, a[m].prev)),
                  If(Foot(cs) == Some(m), r, If(l == Some(m), h, a[m].next)),
                  If(m == p && l == None, h, a[m].FirstChild()), If(m == p && r == None, z, a[m].LastChild()))
  }

  /** `b` is `a` with `c`'s children `cs` spliced into `p`'s list in `c`'s place, `c` blanked. */
  ghost predicate Spliced(a: Arena, b: Arena, c: nat, p: nat, ks: Ids, k: nat, cs: Ids)
    requires k < |ks|
  {
    |b| == |a| && forall m :: 0 <= m < |a| ==> SplicedAt(a, b, c, p, Left(ks, k), Right(ks, k), cs, m)
  }

  lemma SpliceLinked(a: Arena, b: Arena, f: Forest, c: nat)
    requires Linked(a, f) && Attached(f, c)
    requires var p := f.par[c].value; Spliced(a, b, c, p, f.kids[p], IndexOf(f.kids[p], c), f.kids[c])
    ensures Linked(b, Splice(f, c))
  {
    SpliceTidy(f, c);
    var g, p := Splice(f, c), f.par[c].value;
    var ks, k, cs := f.kids[p], IndexOf(f.kids[p], c), f.kids[c];
    var l, r := Left(ks, k), Right(ks, k);
    assert ChildOk(f, p, ks[k]) && Kin(f, p, ks) && Kin(f, c, cs);
    assert (k > 0 ==> ChildOk(f, p, ks[k - 1])) && (k + 1 < |ks| ==> ChildOk(f, p, ks[k + 1]));
    assert cs != [] ==> ChildOk(f, c, cs[0]) && ChildOk(f, c, cs[|cs| - 1]);
    forall q | 0 <= q < |b| ensures ListOk(b, q, g.kids[q]) {
      assert SplicedAt(a, b, c, p, l, r, cs, q);
      if q == p {
        SplicedList(a, b, f, c);
      } else if q != c {
        assert ListOk(a, q, f.kids[q]) && Kin(f, q, f.kids[q]);
        forall j | 0 <= j < |f.kids[q]|
          ensures f.kids[q][j] < |a| && b[f.kids[q][j]].prev == a[f.kids[q][j]].prev
                  && b[f.kids[q][j]].next == a[f.kids[q][j]].next
        {
          assert ChildOk(f, q, f.kids[q][j]) && SplicedAt(a, b, c, p, l, r, cs, f.kids[q][j]);
        }
        ListKept(a, b, q, f.kids[q]);
      }
    }
    forall m | 0 <= m < |b| ensures RecOk(b[m], |b|) && b[m].parent == g.par[m] {
      assert RecOk(a[m], |a|) && SplicedAt(a, b, c, p, l, r, cs, m);
    }
  }

  lemma SpliceAlone(a: Arena, b: Arena, f: Forest, c: nat)
    requires Linked(a, f) && Alone(a, f) && Attached(f, c)
    requires var p := f.par[c].value; Spliced(a, b, c, p, f.kids[p], IndexOf(f.kids[p], c), f.kids[c])
    ensures Alone(b, Splice(f, c))
  {
    var p := f.par[c].value;
    var ks, k, cs := f.kids[p], IndexOf(f.kids[p], c), f.kids[c];
    assert Kin(f, p, ks) && Kin(f, c, cs) && SplicedAt(a, b, c, p, Left(ks, k), Right(ks, k), cs, 0);
    assert (k > 0 ==> ChildOk(f, p, ks[k - 1])) && (k + 1 < |ks| ==> ChildOk(f, p, ks[k + 1]));
    assert forall j :: 0 <= j < |cs| ==> ChildOk(f, c, cs[j]);
  }

  lemma SplicedList(a: Arena, b: Arena, f: Forest, c: nat)
    requires Linked(a, f) && Attached(f, c) && Tidy(Splice(f, c))
    requires var p := f.par[c].value; Spliced(a, b, c, p, f.kids[p], IndexOf(f.kids[p], c), f.kids[c])
    ensures ListOk(b, f.par[c].value, Splice(f, c).kids[f.par[c].value])
  {
    var p := f.par[c].value;
    var ks, k, cs := f.kids[p], IndexOf(f.kids[p], c), f.kids[c];
    var all := ks[..k] + cs + ks[k + 1..];
    assert ListOk(a, p, ks) && ListOk(a, c, cs) && SplicedAt(a, b, c, p, Left(ks, k), Right(ks, k), cs, p);
    assert Kin(f, p, ks) && ChildOk(f, p, ks[k]);
    forall j | 0 <= j < |all| ensures EntryOk(b, all, j) {
      if k <= j < k + |cs| { SplicedChild(a, b, f, c, j); } else { SplicedSibling(a, b, f, c, j); }
    }
  }

  lemma SplicedChild(a: Arena, b: Arena, f: Forest, c: nat, j: nat)
    requires Linked(a, f) && Attached(f, c)
    requires var p := f.par[c].value; Spliced(a, b, c, p, f.kids[p], IndexOf(f.kids[p], c), f.kids[c])
    requires IndexOf(f.kids[f.par[c].value], c) <= j < IndexOf(f.kids[f.par[c].value], c) + |f.kids[c]|
    ensures EntryOk(b, Splice(f, c).kids[f.par[c].value], j)
  {
    var p := f.par[c].value;
    var ks, k, cs := f.kids[p], IndexOf(f.kids[p], c), f.kids[c];
    var all, i := ks[..k] + cs + ks[k + 1..], j - k;
    assert Kin(f, p, ks) && ListOk(a, c, cs) && Kin(f, c, cs) && NoDup(cs) && ChildOk(f, p, ks[k]);
    assert all[j] == cs[i] && EntryOk(a, cs, i) && ChildOk(f, c, cs[i]) && ChildOk(f, c, cs[0])
           && ChildOk(f, c, cs[|cs| - 1]);
    assert SplicedAt(a, b, c, p, Left(ks, k), Right(ks, k), cs, cs[i]);
    assert (i > 0 ==> all[j - 1] == cs[i - 1]) && (i + 1 < |cs| ==> all[j + 1] == cs[i + 1]);
    assert k > 0 ==> ChildOk(f, p, ks[k - 1]);
    assert k + 1 < |ks| ==> ChildOk(f, p, ks[k + 1]);
  }

  lemma SplicedSibling(a: Arena, b: Arena, f: Forest, c: nat, j: nat)
    requires Linked(a, f) && Attached(f, c)
    requires var p := f.par[c].value; Spliced(a, b, c, p, f.kids[p], IndexOf(f.kids[p], c), f.kids[c])
    requires j < |Splice(f, c).kids[f.par[c].value]|
    requires !(IndexOf(f.kids[f.par[c].value], c) <= j < IndexOf(f.kids[f.par[c].value], c) + |f.kids[c]|)
    requires f.par[c].value != c
    ensures EntryOk(b, Splice(f, c).kids[f.par[c].value], j)
  {
    var p := f.par[c].value;
    var ks, k, cs := f.kids[p], IndexOf(f.kids[p], c), f.kids[c];
    var all, i := ks[..k] + cs + ks[k + 1..], if j < k then j else j - |cs| + 1;
    assert Kin(f, p, ks) && NoDup(ks) && ListOk(a, p, ks) && Kin(f, c, cs);
    assert all[j] == ks[i] && EntryOk(a, ks, i) && ChildOk(f, p, ks[i]);
    AroundSplice(ks, k, cs, j, i);
    assert cs != [] ==> ChildOk(f, c, cs[0]) && ChildOk(f, c, cs[|cs| - 1]);
    NotAChild(f, c, p, ks[i]);
    assert SplicedAt(a, b, c, p, Left(ks, k), Right(ks, k), cs, ks[i]);
  }

  /** The neighbours of a list entry beside the stretch that is spliced in. */
  lemma AroundSplice(ks: Ids, k: nat, cs: Ids, j: nat, i: nat)
    requires k < |ks| && j < |ks[..k] + cs + ks[k + 1..]| && !(k <= j < k + |cs|)
    requires i == if j < k then j else j - |cs| + 1
    ensures var all := ks[..k] + cs + ks[k + 1..];
            && i < |ks| && all[j] == ks[i]
            && Left(all, j) == (if i != k + 1 then Left(ks, i) else if cs == [] then Left(ks, k) else Foot(cs))
            && Right(all, j) == if i + 1 != k then Right(ks, i) else if cs == [] then Right(ks, k) else Head(cs)
  {
  }

  lemma NotAChild(f: Forest, c: nat, p: nat, n: nat)
    requires Tidy(f) && c < |f.kids| && p < |f.kids| && p != c && ChildOk(f, p, n)
    ensures n !in f.kids[c]
  {
    forall k | 0 <= k < |f.kids[c]| ensures f.kids[c][k] != n { assert ChildOk(f, c, f.kids[c][k]); }
  }

  // ---- exchanging a node for a loose one ----

  predicate SwappedAt(a: Arena, b: Arena, c: nat, x: nat, p: nat, l: Option<nat>, r: Option<nat>, m: nat)
    requires m < |a| == |b|
  {
    LinksAre(b[m], If(m == c, None, If(m == x, Some(p), a[m].parent)),
             If(m == c, None, If(m == x, l, If(r == Some(m), Some(x), a[m].prev))),
             If(m == c, None, If(m == x, r, If(l == Some(m), Some(x), a[m].next))),
             If(m == p && l == None, Some(x), a[m].FirstChild()), If(m == p && r == None, Some(x), a[m].LastChild()))
  }

  /** `b` is `a` with the loose node `x` linked where `c` was, and `c` cut loose. */
  ghost predicate Swapped(a: Arena, b: Arena, c: nat, x: nat, p: nat, ks: Ids, k: nat)
    requires k < |ks|
  {
    |b| == |a| && forall m :: 0 <= m < |a| ==> SwappedAt(a, b, c, x, p, Left(ks, k), Right(ks, k), m)
  }

  lemma SwapLinked(a: Arena, b: Arena, f: Forest, c: nat, x: nat)
    requires Linked(a, f) && Attached(f, c) && x < |a| && f.rank[f.par[c].value] < f.rank[x]
    requires forall q, j :: 0 <= q < |f.kids| && 0 <= j < |f.kids[q]| ==> f.kids[q][j] != x
    requires var p := f.par[c].value; Swapped(a, b, c, x, p, f.kids[p], IndexOf(f.kids[p], c))
    ensures Linked(b, Swap(f, c, x))
  {
    SwapTidy(f, c, x);
    var g, p := Swap(f, c, x), f.par[c].value;
    var ks, k := f.kids[p], IndexOf(f.kids[p], c);
    var l, r := Left(ks, k), Right(ks, k);
    assert Kin(f, p, ks) && ChildOk(f, p, ks[k]);
    assert (k > 0 ==> ChildOk(f, p, ks[k - 1])) && (k + 1 < |ks| ==> ChildOk(f, p, ks[k + 1]));
    forall q | 0 <= q < |b| ensures ListOk(b, q, g.kids[q]) {
      assert ListOk(a, q, f.kids[q]) && Kin(f, q, f.kids[q]) && SwappedAt(a, b, c, x, p, l, r, q);
      if q == p {
        SwappedList(a, b, f, c, x);
      } else {
        forall j | 0 <= j < |f.kids[q]|
          ensures f.kids[q][j] < |a| && b[f.kids[q][j]].prev == a[f.kids[q][j]].prev
                  && b[f.kids[q][j]].next == a[f.kids[q][j]].next
        {
          assert ChildOk(f, q, f.kids[q][j]) && SwappedAt(a, b, c, x, p, l, r, f.kids[q][j]);
        }
        ListKept(a, b, q, f.kids[q]);
      }
    }
    forall m | 0 <= m < |b| ensures RecOk(b[m], |b|) && b[m].parent == g.par[m] {
      assert RecOk(a[m], |a|) && SwappedAt(a, b, c, x, p, l, r, m);
    }
  }

  lemma SwapAlone(a: Arena, b: Arena, f: Forest, c: nat, x: nat)
    requires Linked(a, f) && Alone(a, f) && Attached(f, c) && 0 < x < |a|
    requires var p := f.par[c].value; Swapped(a, b, c, x, p, f.kids[p], IndexOf(f.kids[p], c))
    ensures Alone(b, Swap(f, c, x))
  {
    var p := f.par[c].value;
    var ks, k := f.kids[p], IndexOf(f.kids[p], c);
    assert Kin(f, p, ks) && SwappedAt(a, b, c, x, p, Left(ks, k), Right(ks, k), 0);
    assert (k > 0 ==> ChildOk(f, p, ks[k - 1])) && (k + 1 < |ks| ==> ChildOk(f, p, ks[k + 1]));
  }

  lemma SwappedList(a: Arena, b: Arena, f: Forest, c: nat, x: nat)
    requires Linked(a, f) && Attached(f, c) && x < |a|
    requires forall q, j :: 0 <= q < |f.kids| && 0 <= j < |f.kids[q]| ==> f.kids[q][j] != x
    requires var p := f.par[c].value; Swapped(a, b, c, x, p, f.kids[p], IndexOf(f.kids[p], c))
    ensures ListOk(b, f.par[c].value, Swap(f, c, x).kids[f.par[c].value])
  {
    var p := f.par[c].value;
    var ks, k := f.kids[p], IndexOf(f.kids[p], c);
    var l, r := Left(ks, k), Right(ks, k);
    var all: Ids := ks[k := x];
    assert Kin(f, p, ks) && NoDup(ks) && ListOk(a, p, ks) && SwappedAt(a, b, c, x, p, l, r, p)
           && SwappedAt(a, b, c, x, p, l, r, x);
    assert forall i :: 0 <= i < |ks| ==> ks[i] != x;
    forall j | 0 <= j < |all| ensures EntryOk(b, all, j) {
      if j != k {
        assert all[j] == ks[j] && EntryOk(a, ks, j) && ChildOk(f, p, ks[j]) && SwappedAt(a, b, c, x, p, l, r, ks[j]);
      }
    }
  }

  // ---- dropping a child list ----

  lemma ClearLinked(a: Arena, b: Arena, f: Forest, c: nat)
    requires Linked(a, f) && c < |a| && a[c].body.Branch?
    requires b == a[c := a[c].(body := a[c].body.(first := None, last := None))]
    ensures Linked(b, ClearKids(f, c)) && SamePayloads(a, b)
  {
    var g := ClearKids(f, c);
    forall q | 0 <= q < |g.kids| ensures Kin(g, q, g.kids[q]) && NoDup(g.kids[q]) && ListOk(b, q, g.kids[q]) {
      assert Kin(f, q, f.kids[q]) && NoDup(f.kids[q]) && ListOk(a, q, f.kids[q]);
      forall j | 0 <= j < |g.kids[q]| ensures ChildOk(g, q, g.kids[q][j]) && EntryOk(b, g.kids[q], j) {
        assert ChildOk(f, q, f.kids[q][j]) && EntryOk(a, f.kids[q], j);
      }
    }
    forall m | 0 <= m < |b| ensures RecOk(b[m], |b|) && b[m].parent == g.par[m] {
      assert RecOk(a[m], |a|);
    }
  }

  // ---- patches as sequences of slot writes ----

  /** Neighbours and parent of `c` joined around it, and its parent pointer cleared. */
  lemma RemovePatch(a: Arena, b: Arena, c: nat, p: nat, l: Option<nat>, r: Option<nat>)
    requires p < |a| && c < |a| && a[p].body.Branch? && LinkOk(l, |a|) && LinkOk(r, |a|) && Distinct(l, Some(c), r, p)
    requires b == PointRight(PointLeft(a[c := a[c].(parent := None)], p, l, r), p, r, l)
    ensures |b| == |a| && forall m :: 0 <= m < |a| ==> RemovedAt(a, b, c, p, l, r, m)
    ensures SamePayloads(a, b) && b[c].body == a[c].body
  {
  }

  function Adopted(a: Arena, cs: Ids, p: nat): Arena {
    seq(|a|, m requires 0 <= m < |a| => if m in cs then a[m].(parent := Some(p)) else a[m])
  }

  function Blanked(a: Arena, c: nat): Arena
    requires c < |a| && a[c].body.Branch?
  {
    a[c := a[c].(parent := None, prev := None, next := None, body := a[c].body.(first := None, last := None))]
  }

  /** The first and last of `cs` come to point outwards, at `l` and `r`. */
  function JoinEnds(a: Arena, cs: Ids, l: Option<nat>, r: Option<nat>): Arena
    requires cs != [] && cs[0] < |a| && cs[|cs| - 1] < |a|
  {
    var t := a[cs[0] := a[cs[0]].(prev := l)];
    t[cs[|cs| - 1] := t[cs[|cs| - 1]].(next := r)]
  }

  /** An empty node taken out: its neighbours are joined to each other. */
  lemma UnwrapEmptyPatch(a: Arena, b: Arena, c: nat, p: nat, l: Option<nat>, r: Option<nat>)
    requires p < |a| && c < |a| && a[p].body.Branch? && a[c].body.Branch?
    requires LinkOk(l, |a|) && LinkOk(r, |a|) && Distinct(l, Some(c), r, p)
    requires b == PointRight(PointLeft(Blanked(a, c), p, l, r), p, r, l)
    ensures |b| == |a| && forall m :: 0 <= m < |a| ==> SplicedAt(a, b, c, p, l, r, [], m)
    ensures SamePayloads(a, b)
  {
  }

  /** A node taken out and its children joined to its neighbours, then given their new parent. */
  lemma UnwrapPatch(a: Arena, s: Arena, b: Arena, c: nat, p: nat, l: Option<nat>, r: Option<nat>, cs: Ids, rest: Ids)
    requires p < |a| && c < |a| && a[p].body.Branch? && a[c].body.Branch?
    requires LinkOk(l, |a|) && LinkOk(r, |a|) && Distinct(l, Some(c), r, p)
    requires cs != [] && (forall j :: 0 <= j < |cs| ==> cs[j] < |a|) && c !in cs && p !in cs && c !in rest && p !in rest
    requires (l.Some? ==> l.value !in cs) && (r.Some? ==> r.value !in cs)
    requires a[cs[0]].prev == None && a[cs[|cs| - 1]].next == None
    requires s == PointRight(PointLeft(Blanked(a, c), p, l, Head(cs)), p, r, Foot(cs))
    requires b == Adopted(JoinEnds(s, cs, l, r), cs + rest, p)
    requires forall j :: 0 <= j < |rest| ==> rest[j] < |a| && a[rest[j]].parent == Some(p)
    ensures |b| == |a| && forall m :: 0 <= m < |a| ==> SplicedAt(a, b, c, p, l, r, cs, m)
    ensures SamePayloads(a, b)
  {
    forall m | 0 <= m < |a| ensures SplicedAt(a, b, c, p, l, r, cs, m) {
      assert m in rest ==> a[m].parent == Some(p);
    }
    UnwrapPayloads(a, s, b, c, p, l, r, cs, rest);
  }

  lemma UnwrapPayloads(a: Arena, s: Arena, b: Arena, c: nat, p: nat, l: Option<nat>, r: Option<nat>, cs: Ids,
      rest: Ids)
    requires p < |a| && c < |a| && a[p].body.Branch? && a[c].body.Branch? && LinkOk(l, |a|) && LinkOk(r, |a|)
    requires cs != [] && (forall j :: 0 <= j < |cs| ==> cs[j] < |a|) && c !in cs && p !in cs
    requires s == PointRight(PointLeft(Blanked(a, c), p, l, Head(cs)), p, r, Foot(cs))
    requires b == Adopted(JoinEnds(s, cs, l, r), cs + rest, p)
    ensures SamePayloads(a, b)
  {
    PointPayloads(Blanked(a, c), p, l, Head(cs), r, Foot(cs));
    assert forall m :: 0 <= m < |a| ==> Payload(Blanked(a, c)[m]) == Payload(a[m]);
    JoinPayloads(s, cs, l, r);
    AdoptPayloads(JoinEnds(s, cs, l, r), cs + rest, p);
    assert forall m :: 0 <= m < |a| ==> Payload(s[m]) == Payload(Blanked(a, c)[m]);
  }

  lemma PointPayloads(a: Arena, p: nat, l: Option<nat>, n: Option<nat>, r: Option<nat>, m: Option<nat>)
    requires p < |a| && a[p].body.Branch? && LinkOk(l, |a|) && LinkOk(r, |a|)
    ensures PointLeft(a, p, l, n)[p].body.Branch? && |PointLeft(a, p, l, n)| == |a|
    ensures SamePayloads(a, PointRight(PointLeft(a, p, l, n), p, r, m))
            && |PointRight(PointLeft(a, p, l, n), p, r, m)| == |a|
  {
  }

  lemma JoinPayloads(a: Arena, cs: Ids, l: Option<nat>, r: Option<nat>)
    requires cs != [] && cs[0] < |a| && cs[|cs| - 1] < |a|
    ensures SamePayloads(a, JoinEnds(a, cs, l, r)) && |JoinEnds(a, cs, l, r)| == |a|
  {
  }

  lemma AdoptPayloads(a: Arena, cs: Ids, p: nat)
    ensures SamePayloads(a, Adopted(a, cs, p)) && |Adopted(a, cs, p)| == |a|
  {
  }

  /**
   The sibling links met when walking right from `c`'s first child after the joins: the children
   first, then the siblings that followed `c` (which already have the new parent).
   */
  lemma UnwrapStep(a: Arena, s: Arena, f: Forest, c: nat, j: nat)
    requires Linked(a, f) && Attached(f, c) && f.kids[c] != [] && a[c].body.Branch? && UnwrapReady(a, f, c)
    requires j < |UnwrapList(f, c)|
    requires var p := f.par[c].value; var ks, cs := f.kids[p], f.kids[c]; var k := IndexOf(ks, c);
             s == JoinEnds(PointRight(PointLeft(Blanked(a, c), p, Left(ks, k), Head(cs)), p, Right(ks, k), Foot(cs)),
                           cs, Left(ks, k), Right(ks, k))
    ensures UnwrapList(f, c)[j] < |s| && s[UnwrapList(f, c)[j]].next == Right(UnwrapList(f, c), j)
  {
    if j < |f.kids[c]| { UnwrapStepChild(a, s, f, c, j); } else { UnwrapStepSibling(a, s, f, c, j); }
  }

  lemma UnwrapStepChild(a: Arena, s: Arena, f: Forest, c: nat, j: nat)
    requires Linked(a, f) && Attached(f, c) && f.kids[c] != [] && a[c].body.Branch? && UnwrapReady(a, f, c)
    requires j < |f.kids[c]|
    requires var p := f.par[c].value; var ks, cs := f.kids[p], f.kids[c]; var k := IndexOf(ks, c);
             s == JoinEnds(PointRight(PointLeft(Blanked(a, c), p, Left(ks, k), Head(cs)), p, Right(ks, k), Foot(cs)),
                           cs, Left(ks, k), Right(ks, k))
    ensures UnwrapList(f, c)[j] < |s| && s[UnwrapList(f, c)[j]].next == Right(UnwrapList(f, c), j)
  {
    var ks, cs := f.kids[f.par[c].value], f.kids[c];
    var k := IndexOf(ks, c);
    var chain := cs + ks[k + 1..];
    assert ListOk(a, c, cs) && NoDup(cs) && chain[j] == cs[j] && EntryOk(a, cs, j);
    assert j + 1 < |cs| ==> chain[j + 1] == cs[j + 1];
    assert j + 1 == |cs| < |chain| ==> chain[j + 1] == ks[k + 1];
  }

  lemma UnwrapStepSibling(a: Arena, s: Arena, f: Forest, c: nat, j: nat)
    requires Linked(a, f) && Attached(f, c) && f.kids[c] != [] && a[c].body.Branch? && UnwrapReady(a, f, c)
    requires |f.kids[c]| <= j < |UnwrapList(f, c)|
    requires var p := f.par[c].value; var ks, cs := f.kids[p], f.kids[c]; var k := IndexOf(ks, c);
             s == JoinEnds(PointRight(PointLeft(Blanked(a, c), p, Left(ks, k), Head(cs)), p, Right(ks, k), Foot(cs)),
                           cs, Left(ks, k), Right(ks, k))
    ensures UnwrapList(f, c)[j] < |s| && s[UnwrapList(f, c)[j]].next == Right(UnwrapList(f, c), j)
  {
    var p := f.par[c].value;
    var ks, cs := f.kids[p], f.kids[c];
    var chain, i := UnwrapList(f, c), IndexOf(ks, c) + 1 + j - |cs|;
    assert ListOk(a, p, ks) && Kin(f, p, ks) && NoDup(ks) && chain[j] == ks[i] && EntryOk(a, ks, i);
    assert Kin(f, c, cs) && ChildOk(f, p, ks[i]) && ChildOk(f, c, cs[|cs| - 1]);
    assert j + 1 < |chain| ==> chain[j + 1] == ks[i + 1];
  }

  /** The index facts an unwrap needs about `c`, its children and its neighbours. */
  ghost predicate UnwrapReady(a: Arena, f: Forest, c: nat)
    requires |a| == |f.kids| && c < |a| && Attached(f, c)
  {
    var p := f.par[c].value;
    var ks, cs := f.kids[p], f.kids[c];
    var k := IndexOf(ks, c);
    var l, r, rest := Left(ks, k), Right(ks, k), ks[k + 1..];
    && p < |a| && a[p].body.Branch? && LinkOk(l, |a|) && LinkOk(r, |a|)
    && (forall j :: 0 <= j < |cs| ==> cs[j] < |a|) && c !in cs && p !in cs && c !in rest && p !in rest
    && (l.Some? ==> l.value !in cs) && (r.Some? ==> r.value !in cs)
    && (cs != [] ==> a[cs[0]].prev == None && a[cs[|cs| - 1]].next == None)
    && (forall j :: 0 <= j < |rest| ==> rest[j] < |a| && a[rest[j]].parent == Some(p))
  }

  lemma UnwrapIsReady(a: Arena, f: Forest, c: nat)
    requires Linked(a, f) && Attached(f, c)
    ensures UnwrapReady(a, f, c)
  {
    Neighbours(a, f, c);
    var p := f.par[c].value;
    var ks, cs := f.kids[p], f.kids[c];
    var k := IndexOf(ks, c);
    assert ListOk(a, c, cs) && Kin(f, p, ks) && Kin(f, c, cs) && NoDup(ks) && RecOk(a[c], |a|);
    assert ChildOk(f, p, ks[k]);
    forall j | 0 <= j < |cs| ensures cs[j] < |a| && cs[j] != c && cs[j] != p && f.par[cs[j]] == Some(c) {
      assert ChildOk(f, c, cs[j]);
    }
    forall j | 0 <= j < |ks| ensures ks[j] < |a| && ks[j] != p && f.par[ks[j]] == Some(p) {
      assert ChildOk(f, p, ks[j]);
    }
    assert cs != [] ==> EntryOk(a, cs, 0) && EntryOk(a, cs, |cs| - 1);
  }

  /** All slot writes of an unwrap, taken together, spell the spliced forest. */
  lemma UnwrapDone(a: Arena, b: Arena, f: Forest, c: nat)
    requires Linked(a, f) && Attached(f, c) && Placed(a, c) && a[c].body.Branch?
    requires var p := a[c].parent.value; var l, r, cs := a[c].prev, a[c].next, f.kids[c];
             if cs == [] then b == PointRight(PointLeft(Blanked(a, c), p, l, r), p, r, l)
             else cs[0] < |a| && cs[|cs| - 1] < |a| && b == Adopted(GapFilled(a, c, cs), UnwrapList(f, c), p)
    ensures Linked(b, Splice(f, c)) && SamePayloads(a, b) && |b| == |a|
    ensures Alone(a, f) ==> Alone(b, Splice(f, c))
  {
    UnwrapPatched(a, b, f, c);
    Neighbours(a, f, c);
    SpliceLinked(a, b, f, c);
    if Alone(a, f) { SpliceAlone(a, b, f, c); }
  }

  lemma UnwrapPatched(a: Arena, b: Arena, f: Forest, c: nat)
    requires Linked(a, f) && Attached(f, c) && Placed(a, c) && a[c].body.Branch?
    requires var p := a[c].parent.value; var l, r, cs := a[c].prev, a[c].next, f.kids[c];
             if cs == [] then b == PointRight(PointLeft(Blanked(a, c), p, l, r), p, r, l)
             else cs[0] < |a| && cs[|cs| - 1] < |a| && b == Adopted(GapFilled(a, c, cs), UnwrapList(f, c), p)
    ensures |b| == |a| && SamePayloads(a, b)
    ensures forall m :: 0 <= m < |a| ==> SplicedAt(a, b, c, a[c].parent.value, a[c].prev, a[c].next, f.kids[c], m)
  {
    UnwrapIsReady(a, f, c);
    Neighbours(a, f, c);
    var p := f.par[c].value;
    assert a[c].parent == Some(p);
    var l, r, cs := a[c].prev, a[c].next, f.kids[c];
    if cs == [] {
      UnwrapEmptyPatch(a, b, c, p, l, r);
    } else {
      UnwrapFilled(a, b, f, c, p, l, r);
    }
  }

  lemma UnwrapFilled(a: Arena, b: Arena, f: Forest, c: nat, p: nat, l: Option<nat>, r: Option<nat>)
    requires |a| == |f.kids| && c < |a| && Attached(f, c) && UnwrapReady(a, f, c) && a[c].body.Branch?
    requires f.kids[c] != [] && f.par[c] == Some(p) && Placed(a, c) && a[c].parent == Some(p)
    requires l == a[c].prev == Left(f.kids[p], IndexOf(f.kids[p], c))
    requires r == a[c].next == Right(f.kids[p], IndexOf(f.kids[p], c)) && Distinct(l, Some(c), r, p)
    requires var cs := f.kids[c];
             cs[0] < |a| && cs[|cs| - 1] < |a| && b == Adopted(GapFilled(a, c, cs), UnwrapList(f, c), p)
    ensures |b| == |a| && SamePayloads(a, b)
    ensures forall m :: 0 <= m < |a| ==> SplicedAt(a, b, c, p, l, r, f.kids[c], m)
  {
    var cs := f.kids[c];
    var s := PointRight(PointLeft(Blanked(a, c), p, l, Head(cs)), p, r, Foot(cs));
    var rest := f.kids[p][IndexOf(f.kids[p], c) + 1..];
    assert UnwrapList(f, c) == cs + rest && GapFilled(a, c, cs) == JoinEnds(s, cs, l, r);
    UnwrapPatch(a, s, b, c, p, l, r, cs, rest);
  }

  /** The nodes met walking right from `c`'s first child once the children are joined to what follows. */
  ghost function UnwrapList(f: Forest, c: nat): Ids
    requires Attached(f, c) && c < |f.kids|
  {
    var p := f.par[c].value;
    f.kids[c] + f.kids[p][IndexOf(f.kids[p], c) + 1..]
  }

  /** `c` blanked and its children `cs` joined to its neighbours and parent. */
  function GapFilled(a: Arena, c: nat, cs: Ids): Arena
    requires Placed(a, c) && a[c].body.Branch? && cs != [] && cs[0] < |a| && cs[|cs| - 1] < |a|
  {
    var p := a[c].parent.value;
    JoinEnds(PointRight(PointLeft(Blanked(a, c), p, a[c].prev, Head(cs)), p, a[c].next, Foot(cs)), cs, a[c].prev,
        a[c].next)
  }

  /** What the joining step and the walk that follows it rely on. */
  lemma UnwrapFacts(a: Arena, f: Forest, c: nat)
    requires Linked(a, f) && Attached(f, c) && a[c].body.Branch?
    ensures Placed(a, c) && a[c].FirstChild() == Head(f.kids[c]) && a[c].LastChild() == Foot(f.kids[c])
    ensures var cs := f.kids[c];
            && (a[c].prev.Some? ==> a[c].prev.value !in cs) && (a[c].next.Some? ==> a[c].next.value !in cs)
            && a[c].parent.value !in cs && c !in cs
            && (cs != [] ==> cs[0] < |a| && cs[|cs| - 1] < |a| && a[cs[0]].prev == None && a[cs[|cs| - 1]].next == None)
  {
    AttachedIsPlaced(a, f, c);
    Neighbours(a, f, c);
    EndChildren(a, f, c);
    UnwrapIsReady(a, f, c);
  }

  /** The sibling links spell `ks`, node after node. */
  ghost predicate NextSpells(a: Arena, ks: Ids) {
    forall j :: 0 <= j < |ks| ==> ks[j] < |a| && a[ks[j]].next == Right(ks, j)
  }

  lemma UnwrapWalk(a: Arena, f: Forest, c: nat)
    requires Linked(a, f) && Attached(f, c) && a[c].body.Branch? && Placed(a, c)
    requires var cs := f.kids[c]; cs != [] && cs[0] < |a| && cs[|cs| - 1] < |a|
    ensures NextSpells(GapFilled(a, c, f.kids[c]), UnwrapList(f, c))
  {
    Neighbours(a, f, c);
    UnwrapIsReady(a, f, c);
    var s, ks := GapFilled(a, c, f.kids[c]), UnwrapList(f, c);
    forall j | 0 <= j < |ks| ensures ks[j] < |s| && s[ks[j]].next == Right(ks, j) {
      UnwrapStep(a, s, f, c, j);
    }
  }

  /** `x` put between `c`'s neighbours, and `c`'s own links cleared. */
  lemma SwapPatch(a: Arena, b: Arena, c: nat, x: nat, p: nat, l: Option<nat>, r: Option<nat>)
    requires p < |a| && c < |a| && x < |a| && a[p].body.Branch? && LinkOk(l, |a|) && LinkOk(r, |a|)
    requires Distinct(l, Some(c), r, p) && x != c && x != p && l != Some(x) && r != Some(x)
    requires var s := PointRight(PointLeft(a, p, l, Some(x)), p, r, Some(x));
             b == s[x := s[x].(parent := Some(p), prev := l, next := r)][c :=
                 s[c].(parent := None, prev := None, next := None)]
    ensures |b| == |a| && forall m :: 0 <= m < |a| ==> SwappedAt(a, b, c, x, p, l, r, m)
    ensures SamePayloads(a, b)
  {
  }

  // ---- replacement ----

  /** The forest between unlinking `x` and linking it into `c`'s place. */
  ghost function Unlinked(f: Forest, c: nat, x: nat): Forest
    requires Tidy(f) && Attached(f, c) && Attached(f, x) && c !in Pre(f, x)
  {
    DetachTidy(f, x);
    var g := Detach(f, x);
    Raise(g, x, g.rank[f.par[c].value] + 1)
  }

  /** Ranks are not part of what the links spell. */
  lemma RaiseLinked(b: Arena, g: Forest, x: nat, d: nat)
    requires Linked(b, g) && x < |b|
    requires forall q, j :: 0 <= q < |g.kids| && 0 <= j < |g.kids[q]| ==> g.kids[q][j] != x
    ensures Linked(b, Raise(g, x, d))
  {
    RaiseTidy(g, x, d);
    assert forall q :: 0 <= q < |b| ==> ListOk(b, q, g.kids[q]);
  }

  ghost predicate UnlinkedReady(b: Arena, f: Forest, c: nat, x: nat)
    requires Tidy(f) && Attached(f, c) && Attached(f, x) && c !in Pre(f, x)
  {
    var g := Unlinked(f, c, x);
    && Linked(b, g) && Attached(g, c) && x < |b| && x != c && g.par[c].value != x
    && g.rank[g.par[c].value] < g.rank[x]
    && (forall q, j :: 0 <= q < |g.kids| && 0 <= j < |g.kids[q]| ==> g.kids[q][j] != x)
    && Replace(f, c, x) == Swap(g, c, x)
  }

  lemma UnlinkedIsReady(b: Arena, f: Forest, c: nat, x: nat)
    requires Tidy(f) && Attached(f, c) && Attached(f, x) && c !in Pre(f, x) && Linked(b, Detach(f, x))
    ensures UnlinkedReady(b, f, c, x)
  {
    DetachTidy(f, x);
    DetachLeavesAttached(f, c, x);
    ParentOutside(f, c, x);
    DetachKeepsTree(f, x);
    UnlinkedIs(f, c, x);
    RaiseAbove(b, Detach(f, x), c, x, Unlinked(f, c, x));
  }

  lemma UnlinkedIs(f: Forest, c: nat, x: nat)
    requires Tidy(f) && Attached(f, c) && Attached(f, x) && c !in Pre(f, x)
    ensures var d := Detach(f, x);
            && Tidy(d) && Attached(d, c)
            && Unlinked(f, c, x) == Raise(d, x, d.rank[d.par[c].value] + 1)
            && Attached(Unlinked(f, c, x), c) && Replace(f, c, x) == Swap(Unlinked(f, c, x), c, x)
  {
    DetachTidy(f, x);
    DetachLeavesAttached(f, c, x);
  }

  /** Raising a loose tree above `c`'s parent keeps everything else. */
  lemma RaiseAbove(b: Arena, d: Forest, c: nat, x: nat, g: Forest)
    requires Linked(b, d) && Attached(d, c) && x < |b| && x != c && d.par[c].value !in Pre(d, x)
    requires forall q, j :: 0 <= q < |d.kids| && 0 <= j < |d.kids[q]| ==> d.kids[q][j] != x
    requires g == Raise(d, x, d.rank[d.par[c].value] + 1)
    ensures && Linked(b, g) && Attached(g, c) && g.par[c].value != x && g.rank[g.par[c].value] < g.rank[x]
            && forall q, j :: 0 <= q < |g.kids| && 0 <= j < |g.kids[q]| ==> g.kids[q][j] != x
  {
    assert x in Pre(d, x);
    RaiseLinked(b, d, x, d.rank[d.par[c].value] + 1);
  }

  /** A node whose parent is an element and whose links are in range and name different nodes. */
  predicate Placed(a: Arena, x: nat) {
    && x < |a| && RecOk(a[x], |a|) && a[x].parent.Some? && a[a[x].parent.value].body.Branch?
    && Distinct(a[x].prev, Some(x), a[x].next, a[x].parent.value)
  }

  lemma AttachedIsPlaced(a: Arena, f: Forest, x: nat)
    requires Linked(a, f) && Attached(f, x)
    ensures Placed(a, x)
  {
    Neighbours(a, f, x);
    assert RecOk(a[x], |a|);
  }

  /** `x`'s old neighbours and parent joined around it: the state between the two halves of a replacement. */
  function Bypassed(a: Arena, x: nat): Arena
    requires Placed(a, x)
  {
    var q := a[x].parent.value;
    PointRight(PointLeft(a, q, a[x].prev, a[x].next), q, a[x].next, a[x].prev)
  }

  ghost predicate SitsAt(b: Arena, c: nat, ks: Ids)
    requires c < |b| && c in ks
  {
    b[c].prev == Left(ks, IndexOf(ks, c)) && b[c].next == Right(ks, IndexOf(ks, c))
  }

  /** What the second half reads: an attached target whose neighbours and parent are not `x`. */
  predicate TargetOk(b: Arena, c: nat, x: nat) {
    && c < |b| && x < |b| && x != c && b[c].parent.Some? && b[c].parent.value < |b| && b[b[c].parent.value].body.Branch?
    && LinkOk(b[c].prev, |b|) && LinkOk(b[c].next, |b|) && b[c].prev != Some(x) && b[c].next != Some(x)
    && Distinct(b[c].prev, Some(c), b[c].next, b[c].parent.value) && b[c].parent != Some(x)
  }

  /** `x` linked between the neighbours of `c`, and `c` on its own. */
  function Relinked(b: Arena, c: nat, x: nat): Arena
    requires TargetOk(b, c, x)
  {
    var p := b[c].parent.value;
    var s := PointRight(PointLeft(b, p, b[c].prev, Some(x)), p, b[c].next, Some(x));
    s[x := s[x].(parent := Some(p), prev := b[c].prev, next := b[c].next)][c :=
        s[c].(parent := None, prev := None, next := None)]
  }

  lemma UnlinkedNeighbours(b: Arena, f: Forest, c: nat, x: nat)
    requires Tidy(f) && Attached(f, c) && Attached(f, x) && c !in Pre(f, x) && UnlinkedReady(b, f, c, x)
    ensures TargetOk(b, c, x)
    ensures var g := Unlinked(f, c, x);
            g.par[c] == b[c].parent && SitsAt(b, c, g.kids[b[c].parent.value])
  {
    var g := Unlinked(f, c, x);
    Neighbours(b, g, c);
    assert RecOk(b[c], |b|);
    var p := b[c].parent.value;
    var k := IndexOf(g.kids[p], c);
    assert (k > 0 ==> g.kids[p][k - 1] != x) && (k + 1 < |g.kids[p]| ==> g.kids[p][k + 1] != x);
  }

  /** First half of a replacement: `x` is bypassed, and the target can be read. */
  lemma ReplaceHalfway(a: Arena, b: Arena, f: Forest, c: nat, x: nat)
    requires Linked(a, f) && Attached(f, c) && Attached(f, x) && c !in Pre(f, x)
    requires Placed(a, x)
    requires b == Bypassed(a, x)[x := Bypassed(a, x)[x].(parent := None)]
    ensures SamePayloads(a, b) && UnlinkedReady(b, f, c, x) && TargetOk(Bypassed(a, x), c, x) && |b| == |a|
    ensures Alone(a, f) ==> Alone(b, Unlinked(f, c, x))
  {
    Bypasses(a, b, f, x);
    UnlinkedIsReady(b, f, c, x);
    UnlinkedNeighbours(b, f, c, x);
  }

  /** With its neighbours joined and its parent forgotten, `x` is cut loose. */
  lemma Bypasses(a: Arena, b: Arena, f: Forest, x: nat)
    requires Linked(a, f) && Attached(f, x) && Placed(a, x)
    requires b == Bypassed(a, x)[x := Bypassed(a, x)[x].(parent := None)]
    ensures Linked(b, Detach(f, x)) && SamePayloads(a, b) && |b| == |a| && (Alone(a, f) ==> Alone(b, Detach(f, x)))
  {
    Neighbours(a, f, x);
    BypassedIs(a, b, x);
    RemovePatch(a, b, x, a[x].parent.value, a[x].prev, a[x].next);
    RemoveLinked(a, b, f, x);
    if Alone(a, f) { RemoveAlone(a, b, f, x); }
  }

  /** Whether `x` forgets its parent before or after its neighbours are joined makes no difference. */
  lemma BypassedIs(a: Arena, b: Arena, x: nat)
    requires Placed(a, x)
    requires b == Bypassed(a, x)[x := Bypassed(a, x)[x].(parent := None)]
    ensures var q := a[x].parent.value;
            b == PointRight(PointLeft(a[x := a[x].(parent := None)], q, a[x].prev, a[x].next), q, a[x].next, a[x].prev)
  {
  }

  /** Second half: `x` linked into `c`'s place spells the replaced forest. */
  lemma ReplaceDone(b: Arena, d: Arena, f: Forest, c: nat, x: nat)
    requires Tidy(f) && Attached(f, c) && Attached(f, x) && c !in Pre(f, x) && UnlinkedReady(b, f, c, x)
             && TargetOk(b, c, x)
    requires d == Relinked(b, c, x)
    ensures Linked(d, Replace(f, c, x)) && SamePayloads(b, d) && |d| == |b|
    ensures x != 0 && Alone(b, Unlinked(f, c, x)) ==> Alone(d, Replace(f, c, x))
  {
    UnlinkedNeighbours(b, f, c, x);
    SwapPatch(b, d, c, x, b[c].parent.value, b[c].prev, b[c].next);
    SwapLinked(b, d, Unlinked(f, c, x), c, x);
    if x != 0 && Alone(b, Unlinked(f, c, x)) { SwapAlone(b, d, Unlinked(f, c, x), c, x); }
  }
}
