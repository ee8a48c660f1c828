/**
 The gaps on either side of a replacement: what the program makes of two neighbours after the tree
 around them was tidied up, and that text on both sides then stays apart.
 */
module Gaps {
  import opened Wrappers
  import opened LittleEndian
  import opened NodeLayout
  import opened Forest
  import opened ForestEdits
  import opened Links
  import opened RevWalk
  import opened Spaces
  import opened Tags
  import opened VisibleText
  import opened Climbing
  import opened StandIns
  import opened Replacing

  /** A document at one moment. */
  datatype Page = Page(recs: Arena, doc: Forest, pool: Bytes)

  ghost predicate Whole(p: Page) {
    Linked(p.recs, p.doc)
  }

  /** One text node reading " " was put right after `prev`; nothing else changed. */
  ghost predicate SpaceAfter(p: Page, q: Page, prev: nat) {
    && Even(p.doc) && Attached(p.doc, prev) && p.doc.par[prev].value < |p.doc.kids|
    && |q.recs| == |p.recs| + 1 == |p.doc.kids| + 1 && SamePayloads(p.recs, q.recs)
    && q.pool == p.pool + [32] && IsSpaceNode(q.recs, q.pool, |p.recs|)
    && q.doc == AddLeaf(p.doc, p.doc.par[prev].value, IndexOf(p.doc.kids[p.doc.par[prev].value], prev) + 1)
  }

  /** A space was put after `prev` if both neighbours flow inline and the text has no space there; else nothing was. */
  ghost predicate MaybeSpaced(p: Page, q: Page, prev: Option<nat>, next: Option<nat>)
    requires Tidy(p.doc) && |p.recs| == |p.doc.kids|
  {
    if prev.Some? && next.Some? && prev.value < |p.recs| && next.value < |p.recs|
       && IsInline(p.recs[prev.value].tag) && IsInline(p.recs[next.value].tag)
       && !SpaceBeside(p.recs, p.doc, p.pool, next.value)
    then SpaceAfter(p, q, prev.value)
    else q == p
  }

  // ---- neighbours in a list ----

  ghost predicate PairAt(ks: Ids, k: nat, u: nat, v: nat) {
    k + 1 < |ks| && ks[k] == u && ks[k + 1] == v
  }

  /** `v` is the sibling right after `u`. */
  ghost predicate Adjacent(f: Forest, u: nat, v: nat) {
    && Attached(f, u) && Attached(f, v) && f.par[v] == f.par[u]
    && exists k: nat :: PairAt(f.kids[f.par[u].value], k, u, v)
  }

  lemma AdjacentAt(f: Forest, u: nat, v: nat)
    requires Tidy(f) && Adjacent(f, u, v)
    ensures PairAt(f.kids[f.par[u].value], IndexOf(f.kids[f.par[u].value], u), u, v)
  {
    var ks := f.kids[f.par[u].value];
    var k: nat :| PairAt(ks, k, u, v);
    assert NoDup(ks) && ks[k] == ks[IndexOf(ks, u)];
  }

  lemma PairInserted(ks: Ids, k: nat, n: nat, j: nat, u: nat, v: nat) returns (j': nat)
    requires PairAt(ks, j, u, v) && k <= |ks| && k != j + 1
    ensures PairAt(Insert(ks, k, n), j', u, v)
  {
    j' := if j + 1 < k then j else j + 1;
  }

  lemma PairCut(ks: Ids, k: nat, j: nat, u: nat, v: nat) returns (j': nat)
    requires PairAt(ks, j, u, v) && k < |ks| && ks[k] != u && ks[k] != v
    ensures PairAt(Cut(ks, k), j', u, v)
  {
    j' := if j + 1 < k then j else j - 1;
  }

  // ---- the neighbours of the replacement ----

  /** The siblings of the replaced node are next to the replacement, unless one of them is the replacement. */
  lemma NextToReplacement(a: Arena, f: Forest, i: nat, x: nat)
    requires Linked(a, f) && Attached(f, i) && Attached(f, x) && i !in Pre(f, x) && i < |a|
    ensures Tidy(Replace(f, i, x))
    ensures a[i].prev.Some? && a[i].prev.value != x ==> Adjacent(Replace(f, i, x), a[i].prev.value, x)
    ensures a[i].next.Some? && a[i].next.value != x ==> Adjacent(Replace(f, i, x), x, a[i].next.value)
  {
    ReplaceTidy(f, i, x);
    NextTo(a, f, i);
    if a[i].prev.Some? && a[i].prev.value != x { PairReplaced(f, i, x, a[i].prev.value, true); }
    if a[i].next.Some? && a[i].next.value != x { PairReplaced(f, i, x, a[i].next.value, false); }
  }

  lemma NextTo(a: Arena, f: Forest, i: nat)
    requires Linked(a, f) && Attached(f, i) && i < |a|
    ensures a[i].prev.Some? ==> a[i].prev.value != i && Adjacent(f, a[i].prev.value, i)
    ensures a[i].next.Some? ==> a[i].next.value != i && Adjacent(f, i, a[i].next.value)
  {
    var ks, k := f.kids[f.par[i].value], IndexOf(f.kids[f.par[i].value], i);
    Neighbours(a, f, i);
    SiblingsAttached(a, f, i);
    if k > 0 { assert PairAt(ks, k - 1, ks[k - 1], i); }
    if k + 1 < |ks| { assert PairAt(ks, k, i, ks[k + 1]); }
  }

  lemma PairReplaced(f: Forest, i: nat, x: nat, v: nat, before: bool)
    requires Tidy(f) && Attached(f, i) && Attached(f, x) && i !in Pre(f, x) && Attached(f, v) && f.par[v] == f.par[i]
    requires v != x && v != i && if before then Adjacent(f, v, i) else Adjacent(f, i, v)
    ensures Tidy(Replace(f, i, x))
    ensures if before then Adjacent(Replace(f, i, x), v, x) else Adjacent(Replace(f, i, x), x, v)
  {
    var d, g, p := Detach(f, x), Replace(f, i, x), f.par[i].value;
    ReplaceParents(f, i, x);
    ReplaceStays(f, i, x, v);
    DetachLeavesAttached(f, i, x);
    DetachTidy(f, x);
    var u, w := if before then v else i, if before then i else v;
    var j: nat :| PairAt(f.kids[p], j, u, w);
    assert i != x by { assert x in Pre(f, x); }
    if f.par[x] == Some(p) { j := PairCut(f.kids[p], IndexOf(f.kids[p], x), j, u, w); }
    assert PairAt(d.kids[p], j, u, w) && NoDup(d.kids[p]);
    assert IndexOf(d.kids[p], i) == if before then j + 1 else j;
    assert PairAt(g.kids[p], j, if before then v else x, if before then x else v);
  }

  /** Pruning leaves neighbours that it does not take next to each other. */
  lemma AdjacentKept(a: Arena, f: Forest, pool: Bytes, b: Arena, h: Forest, pool': Bytes, u: nat, v: nat)
    requires Tidy(f) && |a| == |f.kids| && Tidy(h) && KidsAfter(a, f, h) && SpacesPut(a, f, pool, b, h, pool')
    requires Adjacent(f, u, v) && Stays(f, h, u) && Stays(f, h, v)
    ensures Adjacent(h, u, v)
  {
    var p := f.par[u].value;
    var ks := f.kids[p];
    var j: nat :| PairAt(ks, j, u, v);
    assert Attached(h, u) && Attached(h, v) && p < |f.kids|;
    if ChildGone(f, h, p) {
      var c :| c in ks && c < |h.par| && h.par[c] == None;
      assert ChildOk(f, p, ks[IndexOf(ks, c)]);
      assert Gone(f, h, c);
      PairLeft(a, f, pool, b, h, pool', c, j, u, v);
    } else {
      assert PairAt(h.kids[p], j, u, v);
    }
  }

  lemma PairLeft(a: Arena, f: Forest, pool: Bytes, b: Arena, h: Forest, pool': Bytes, c: nat, j: nat, u: nat, v: nat)
    requires Tidy(f) && |a| == |f.kids| && Attached(f, c) && f.par[c].value < |f.kids|
             && ListAfter(a, f, pool, b, h, pool', c)
    requires c != u && c != v && PairAt(f.kids[f.par[c].value], j, u, v)
    ensures f.par[c].value < |h.kids| && exists k: nat :: PairAt(h.kids[f.par[c].value], k, u, v)
  {
    var p := f.par[c].value;
    var ks, k := f.kids[p], IndexOf(f.kids[p], c);
    if SpaceDue(a, f, pool, c) {
      var n :| StandsFor(a, f, b, h, pool', c, n);
      assert PairAt(Put(ks, k, n), j, u, v);
    } else {
      var j' := PairCut(ks, k, j, u, v);
      assert PairAt(h.kids[p], j', u, v);
    }
  }

  /** A space after another node than `u` does not come between `u` and `v`. */
  lemma StillAdjacent(p: Page, q: Page, prev: nat, u: nat, v: nat)
    requires Whole(p) && SpaceAfter(p, q, prev) && Adjacent(p.doc, u, v) && prev != u
    ensures Adjacent(q.doc, u, v)
  {
    var f, s, t := p.doc, p.doc.par[prev].value, p.doc.par[u].value;
    var j: nat :| PairAt(f.kids[t], j, u, v);
    AddLeafStays(f, s, IndexOf(f.kids[s], prev) + 1, u);
    AddLeafStays(f, s, IndexOf(f.kids[s], prev) + 1, v);
    if s == t {
      assert NoDup(f.kids[t]);
      var j' := PairInserted(f.kids[t], IndexOf(f.kids[s], prev) + 1, |f.kids|, j, u, v);
      assert PairAt(q.doc.kids[t], j', u, v);
    } else {
      assert PairAt(q.doc.kids[t], j, u, v);
    }
  }

  // ---- a gap is filled and stays filled ----

  ghost predicate InTree(f: Forest, root: nat, n: nat) {
    Tidy(f) && root < |f.kids| && f.par[root] == None && n in Pre(f, root)
  }

  lemma InTreeStill(p: Page, q: Page, prev: nat, root: nat, n: nat)
    requires Whole(p) && SpaceAfter(p, q, prev) && InTree(p.doc, root, n)
    ensures InTree(q.doc, root, n)
  {
    var f, s := p.doc, p.doc.par[prev].value;
    AddLeafKeepsRest(f, s, IndexOf(f.kids[s], prev) + 1, root);
  }

  /** The new space is the last text before the sibling after `prev`. */
  lemma GapFilled(p: Page, q: Page, root: nat, prev: nat, next: nat)
    requires Whole(p) && SpaceAfter(p, q, prev) && InTree(p.doc, root, next) && Adjacent(p.doc, prev, next)
    ensures Tidy(q.doc) && next < |q.doc.kids| && SpaceBeside(q.recs, q.doc, q.pool, next)
  {
    var f, s := p.doc, p.doc.par[prev].value;
    AdjacentAt(f, prev, next);
    InPreUp(f, root, next);
    LeafBeside(q.recs, q.pool, f, s, IndexOf(f.kids[s], prev) + 1, root, next);
  }

  /** A space after `x` leaves the text around `x` spaced if it was. */
  lemma GapStays(p: Page, q: Page, root: nat, x: nat)
    requires Whole(p) && Extends(p.recs, p.pool, q.recs, q.pool) && SpaceAfter(p, q, x) && InTree(p.doc, root, x)
    requires x < |p.doc.kids| && x != root && SpaceBeside(p.recs, p.doc, p.pool, x)
    ensures Tidy(q.doc) && x < |q.doc.kids| && SpaceBeside(q.recs, q.doc, q.pool, x)
  {
    var f, n := p.doc, |p.recs|;
    var before, below, t := LeafAfter(p, q, root, x);
    TopIs(f, root, x);
    InTreeStill(p, q, x, root, x);
    TopIs(q.doc, root, x);
    PlaceIs(f, x, before, below + t);
    PlaceIs(q.doc, x, before, below + [n] + t);
    TreeInRange(f, root);
    PartsOf(|f.kids|, Pre(f, root), before, x, below + t);
    StillSpaced(p, q, before, below, t);
  }

  lemma StillSpaced(p: Page, q: Page, before: Ids, below: Ids, t: Ids)
    requires Extends(p.recs, p.pool, q.recs, q.pool) && IsSpaceNode(q.recs, q.pool, |p.recs|)
    requires forall k :: 0 <= k < |before| ==> before[k] < |p.recs|
    requires var after := below + t; forall k :: 0 <= k < |after| ==> after[k] < |p.recs|
    requires SpaceLast(p.recs, p.pool, before) || SpaceFirst(p.recs, p.pool, below + t)
    ensures SpaceLast(q.recs, q.pool, before) || SpaceFirst(q.recs, q.pool, below + [|p.recs|] + t)
  {
    SpacesSame(p.recs, p.pool, q.recs, q.pool, before);
    SpacesSame(p.recs, p.pool, q.recs, q.pool, below + t);
    if SpaceFirst(q.recs, q.pool, below + t) { FirstThrough(q.recs, q.pool, below, |p.recs|, t); }
  }

  lemma PartsOf(n: nat, order: Ids, before: Ids, x: nat, after: Ids)
    requires order == before + [x] + after && forall k :: 0 <= k < |order| ==> order[k] < n
    ensures forall k :: 0 <= k < |before| ==> before[k] < n
    ensures forall k :: 0 <= k < |after| ==> after[k] < n
  {
    assert forall k :: 0 <= k < |before| ==> before[k] == order[k];
    assert forall k :: 0 <= k < |after| ==> after[k] == order[|before| + 1 + k];
  }

  /** The space comes right after the tree at `x`. */
  lemma LeafAfter(p: Page, q: Page, root: nat, x: nat) returns (before: Ids, below: Ids, after: Ids)
    requires Whole(p) && SpaceAfter(p, q, x) && InTree(p.doc, root, x) && x < |p.doc.kids| && x != root
    ensures Tidy(q.doc) && Pre(p.doc, root) == before + [x] + (below + after)
    ensures Pre(q.doc, root) == before + [x] + (below + [|p.recs|] + after)
  {
    var f, s := p.doc, p.doc.par[x].value;
    InPreUp(f, root, x);
    var left;
    before, left, after := LeafBehind(f, s, x, root);
    below := Pre(f, x)[1..];
    LeafJoins(left, before, x, below, |p.recs|, after);
  }

  lemma LeafBehind(f: Forest, s: nat, x: nat, root: nat) returns (before: Ids, left: Ids, right: Ids)
    requires Tidy(f) && Attached(f, x) && f.par[x] == Some(s) && s < |f.kids| && x < |f.kids| && root < |f.kids|
             && s in Pre(f, root)
    ensures left == before + ([x] + Pre(f, x)[1..]) && Pre(f, root) == left + right
    ensures var g := AddLeaf(f, s, IndexOf(f.kids[s], x) + 1); Tidy(g) && Pre(g, root) == left + [|f.kids|] + right
  {
    var a0;
    a0, left, right := AddLeafDocument(f, s, IndexOf(f.kids[s], x) + 1, root);
    var most := EndsWithTree(f, s, x);
    before := a0 + [s] + most;
  }

  lemma LeafJoins(left: Ids, before: Ids, x: nat, below: Ids, n: nat, after: Ids)
    requires left == before + ([x] + below)
    ensures left + after == before + [x] + (below + after)
    ensures left + [n] + after == before + [x] + (below + [n] + after)
  {
  }

  lemma EndsWithTree(f: Forest, s: nat, x: nat) returns (most: Ids)
    requires Tidy(f) && Attached(f, x) && f.par[x] == Some(s) && s < |f.kids| && x < |f.kids|
    ensures var k := IndexOf(f.kids[s], x);
            Kin(f, s, f.kids[s][..k + 1]) && PreAll(f, s, f.kids[s][..k + 1]) == most + ([x] + Pre(f, x)[1..])
  {
    var ks, k := f.kids[s], IndexOf(f.kids[s], x);
    assert ks == ks[..k] + [x] + ks[k + 1..] && ks[..k + 1] == ks[..k] + [x] && ChildOk(f, s, ks[k]);
    KinParts(f, s, ks[..k], [x], ks[k + 1..]);
    PreAllAppend(f, s, ks[..k], [x]);
    PreAllOne(f, s, x);
    most := PreAll(f, s, ks[..k]);
  }

  /** A space node further on does not hide an earlier space, and is one itself. */
  lemma {:induction false} FirstThrough(a: Arena, pool: Bytes, s: Ids, n: nat, t: Ids)
    requires IsSpaceNode(a, pool, n) && SpaceFirst(a, pool, s + t)
    ensures SpaceFirst(a, pool, s + [n] + t)
  {
    if s == [] {
      assert (s + [n] + t)[0] == n;
    } else if !IsTextNode(a, s[0]) {
      assert (s + t)[1..] == s[1..] + t && (s + [n] + t)[1..] == s[1..] + [n] + t;
      FirstThrough(a, pool, s[1..], n, t);
    }
  }

  // ---- both gaps ----

  /** Neighbours of an inline replacement end up with a space between, if they flow inline and are still there. */
  lemma Apart(p: Page, q: Page, r: Page, root: nat, prev: Option<nat>, x: nat, next: Option<nat>)
    requires Whole(p) && Whole(q) && Whole(r) && InTree(p.doc, root, x) && x != root && x < |p.recs|
    requires Extends(p.recs, p.pool, q.recs, q.pool) && Extends(q.recs, q.pool, r.recs, r.pool)
    requires MaybeSpaced(p, q, prev, Some(x)) && MaybeSpaced(q, r, Some(x), next) && IsInline(p.recs[x].tag)
    requires prev.Some? && prev.value < |p.recs| && prev.value != x && IsInline(p.recs[prev.value].tag) ==>
             Adjacent(p.doc, prev.value, x) || SpaceBeside(p.recs, p.doc, p.pool, x)
    ensures x < |r.doc.kids|
    ensures prev.Some? && prev.value < |p.recs| && prev.value != x && IsInline(p.recs[prev.value].tag) ==>
            SpaceBeside(r.recs, r.doc, r.pool, x)
    ensures next.Some? && next.value < |p.recs| && Adjacent(p.doc, x, next.value)
            && IsInline(p.recs[next.value].tag) ==>
            next.value < |r.doc.kids| && SpaceBeside(r.recs, r.doc, r.pool, next.value)
  {
    assert Payload(q.recs[x]) == Payload(p.recs[x]);
    if q != p { InTreeStill(p, q, prev.value, root, x); }
    if prev.Some? && prev.value < |p.recs| && prev.value != x && IsInline(p.recs[prev.value].tag) {
      if q != p { GapFilled(p, q, root, prev.value, x); }
      if r != q { GapStays(q, r, root, x); }
    }
    if next.Some? && next.value < |p.recs| && Adjacent(p.doc, x, next.value) && IsInline(p.recs[next.value].tag) {
      ApartFromNext(p, q, r, root, prev, x, next.value);
    }
  }

  lemma ApartFromNext(p: Page, q: Page, r: Page, root: nat, prev: Option<nat>, x: nat, next: nat)
    requires Whole(p) && Whole(q) && Whole(r) && InTree(p.doc, root, x) && InTree(q.doc, root, x) && x != root
    requires x < |p.recs| && next < |p.recs| && SamePayloads(p.recs, q.recs)
    requires MaybeSpaced(p, q, prev, Some(x)) && MaybeSpaced(q, r, Some(x), Some(next)) && IsInline(p.recs[x].tag)
    requires Adjacent(p.doc, x, next) && IsInline(p.recs[next].tag)
    ensures next < |r.doc.kids| && SpaceBeside(r.recs, r.doc, r.pool, next)
  {
    assert Payload(q.recs[x]) == Payload(p.recs[x]) && Payload(q.recs[next]) == Payload(p.recs[next]);
    NextInTree(p.doc, root, x, next);
    if q != p {
      InTreeStill(p, q, prev.value, root, next);
      if prev.value == x {
        GapFilled(p, q, root, x, next);
      } else {
        StillAdjacent(p, q, prev.value, x, next);
      }
    }
    if r != q { GapFilled(q, r, root, x, next); }
  }

  lemma NextInTree(f: Forest, root: nat, x: nat, next: nat)
    requires InTree(f, root, x) && x != root && Adjacent(f, x, next)
    ensures InTree(f, root, next)
  {
    InPreUp(f, root, x);
    InPreDown(f, root, f.par[x].value, next);
  }

  // ---- the pruned replacement, on the records before the call ----

  /**
   What pruning from `q` made of `g`, told with the records and the text from before: which nodes went,
   that all others kept their places, what is left of the lists, and where spaces were put.
   */
  ghost predicate TidiedUp(a: Arena, g: Forest, pool: Bytes, ink: Ink, mid: Page, root: nat, q: nat)
    requires Tidy(g) && |a| == |g.kids| && q < |a|
  {
    && RemovedAre(a, g, pool, ink, mid.doc, q) && KidsAfter(a, g, mid.doc)
    && (forall n :: 0 <= n < |g.kids| ==> Stays(g, mid.doc, n) || mid.doc.par[n] == None)
    && SpacesPut(a, g, pool, mid.recs, mid.doc, mid.pool)
    && Tidy(mid.doc) && root < |mid.doc.kids| && SpacedOut(a, g, mid.recs, mid.doc, mid.pool, root)
  }

  lemma DueKept(a: Arena, pool: Bytes, b: Arena, g: Forest, v: nat)
    requires Tidy(g) && |a| == |b| == |g.kids| && Extends(a, pool, b, pool) && Attached(g, v)
    ensures Flanked(b, g, v) <==> Flanked(a, g, v)
    ensures SpaceDue(b, g, pool, v) <==> SpaceDue(a, g, pool, v)
  {
    SameFlanks(a, g, b, g, v);
    if Flanked(a, g, v) {
      DetachTidy(g, v);
      var d, n := Detach(g, v), NextOf(g, v);
      TreeInRange(d, TopOf(d, n));
      SpacesSame(a, pool, b, pool, Preceding(d, n));
      SpacesSame(a, pool, b, pool, Following(d, n));
    }
  }

  lemma TidiedIs(a: Arena, pool: Bytes, b: Arena, g: Forest, ink: Ink, mid: Page, root: nat, q: nat)
    requires Tidy(g) && |a| == |b| == |g.kids| && Extends(a, pool, b, pool) && q < |a|
    requires TidiedUp(b, g, pool, ink, mid, root, q)
    ensures TidiedUp(a, g, pool, ink, mid, root, q)
  {
    var h := mid.doc;
    RemovedKept(a, pool, b, g, ink, h, q);
    forall v | 0 <= v < |g.par| && Attached(g, v) && h.par[v] == None && !IsBlock(a[v].tag)
        ensures ListWithout(g, h, v) {
      assert Payload(b[v]) == Payload(a[v]);
    }
    PutsKept(a, pool, b, g, mid);
    forall v: nat | Gone(g, h, v) && g.par[v].value in Pre(h, root) && Flanked(a, g, v)
        ensures NextOf(g, v) < |h.kids| && SpaceBeside(mid.recs, h, mid.pool, NextOf(g, v)) {
      DueKept(a, pool, b, g, v);
    }
  }

  lemma RemovedKept(a: Arena, pool: Bytes, b: Arena, g: Forest, ink: Ink, h: Forest, q: nat)
    requires Tidy(g) && |a| == |b| == |g.kids| && Extends(a, pool, b, pool) && q < |a|
    requires RemovedAre(b, g, pool, ink, h, q)
    ensures RemovedAre(a, g, pool, ink, h, q)
  {
    TreeInRange(g, q);
    SeenKept(a, pool, b, pool, ink, Pre(g, q));
    assert Payload(b[q]) == Payload(a[q]);
    forall v | 0 <= v < |g.par| && Attached(g, v) ensures h.par[v] == None <==> Removes(a, g, pool, ink, q, v) {
      GoesKept(a, pool, b, ink, g, q, v);
    }
  }

  lemma PutsKept(a: Arena, pool: Bytes, b: Arena, g: Forest, mid: Page)
    requires Tidy(g) && |a| == |b| == |g.kids| && Extends(a, pool, b, pool)
    requires SpacesPut(b, g, pool, mid.recs, mid.doc, mid.pool)
    ensures SpacesPut(a, g, pool, mid.recs, mid.doc, mid.pool)
  {
    var c, h, pool' := mid.recs, mid.doc, mid.pool;
    forall v | Gone(g, h, v) ensures ListAfter(a, g, pool, c, h, pool', v) {
      DueKept(a, pool, b, g, v);
      assert ListAfter(b, g, pool, c, h, pool', v);
      if SpaceDue(a, g, pool, v) {
        var n :| StandsFor(b, g, c, h, pool', v, n);
        assert StandsFor(a, g, c, h, pool', v, n);
      }
    }
    forall n | |a| <= n < |c| ensures PutForOne(a, g, pool, c, h, pool', n) {
      assert PutForOne(b, g, pool, c, h, pool', n);
      var v :| Gone(g, h, v) && SpaceDue(b, g, pool, v) && StandsFor(b, g, c, h, pool', v, n);
      DueKept(a, pool, b, g, v);
      assert StandsFor(a, g, c, h, pool', v, n);
      PutIs(a, g, pool, c, h, pool', v, n);
    }
  }

  // ---- the replacement and its neighbours ----

  /**
   The replacement of `i` by the inline `x` has a space before it if an inline node stands there, and an
   inline node after it that is still in a list has one before itself.
   */
  ghost predicate KeptApart(a: Arena, i: nat, x: nat, r: Page)
    requires i < |a| && LinkOk(a[i].prev, |a|) && LinkOk(a[i].next, |a|) && Tidy(r.doc)
             && |a| <= |r.doc.kids| <= |r.doc.par| && x < |a|
  {
    && (a[i].prev.Some? && a[i].prev.value != x && IsInline(a[a[i].prev.value].tag) ==>
       SpaceBeside(r.recs, r.doc, r.pool, x))
    && (a[i].next.Some? && a[i].next.value != x && IsInline(a[a[i].next.value].tag)
        && r.doc.par[a[i].next.value].Some? ==>
       SpaceBeside(r.recs, r.doc, r.pool, a[i].next.value))
  }

  ghost predicate StillListed(f: Forest, n: nat) {
    n < |f.par| && f.par[n].Some?
  }

  /** The neighbours that pruning has left in place are still next to the replacement. */
  lemma NeighboursKept(a: Arena, f: Forest, pool: Bytes, mid: Page, ink: Ink, i: nat, x: nat, root: nat, q: nat)
    requires Linked(a, f) && Attached(f, i) && Attached(f, x) && i !in Pre(f, x) && i < |a| && x < |a| && q < |a|
    requires Tidy(Replace(f, i, x)) && |Replace(f, i, x).kids| == |a| && Attached(mid.doc, x)
    requires TidiedUp(a, Replace(f, i, x), pool, ink, mid, root, q)
    ensures a[i].prev.Some? && a[i].prev.value != x && StillListed(mid.doc, a[i].prev.value) ==>
            Adjacent(mid.doc, a[i].prev.value, x)
    ensures a[i].next.Some? && a[i].next.value != x && StillListed(mid.doc, a[i].next.value) ==>
            Adjacent(mid.doc, x, a[i].next.value)
  {
    var g, h := Replace(f, i, x), mid.doc;
    SiblingsAttached(a, f, i);
    NextToReplacement(a, f, i, x);
    assert Stays(g, h, x);
    if a[i].prev.Some? && a[i].prev.value != x && h.par[a[i].prev.value].Some? {
      assert Stays(g, h, a[i].prev.value);
      AdjacentKept(a, g, pool, mid.recs, h, mid.pool, a[i].prev.value, x);
    }
    if a[i].next.Some? && a[i].next.value != x && h.par[a[i].next.value].Some? {
      assert Stays(g, h, a[i].next.value);
      AdjacentKept(a, g, pool, mid.recs, h, mid.pool, x, a[i].next.value);
    }
  }

  lemma ApartAfter(a: Arena, f: Forest, pool: Bytes, mid: Page, first: Page, last: Page, ink: Ink, i: nat, x: nat,
      root: nat, q: nat)
    requires Linked(a, f) && Attached(f, i) && Attached(f, x) && i !in Pre(f, x) && i < |a| && x < |a| && q < |a|
    requires Tidy(Replace(f, i, x)) && |Replace(f, i, x).kids| == |a| && Attached(mid.doc, x)
             && Grounded(mid.doc, x) && LinkOk(a[i].prev, |a|) && LinkOk(a[i].next, |a|)
    requires TidiedUp(a, Replace(f, i, x), pool, ink, mid, root, q) && Extends(a, pool, mid.recs, mid.pool)
    requires Whole(mid) && Whole(first) && Whole(last) && IsInline(a[x].tag)
    requires Extends(mid.recs, mid.pool, first.recs, first.pool)
             && Extends(first.recs, first.pool, last.recs, last.pool)
    requires MaybeSpaced(mid, first, a[i].prev, Some(x)) && MaybeSpaced(first, last, Some(x), a[i].next)
    requires AllStay(mid.doc, last.doc) && |a| <= |last.doc.kids| <= |last.doc.par|
    requires PrevGone(mid.doc, a[i].prev) && IsInline(a[a[i].prev.value].tag) ==>
             SpaceBeside(mid.recs, mid.doc, mid.pool, x)
    ensures KeptApart(a, i, x, last)
  {
    var h, prev, next := mid.doc, a[i].prev, a[i].next;
    NeighboursKept(a, f, pool, mid, ink, i, x, root, q);
    assert Payload(mid.recs[x]) == Payload(a[x]);
    if prev.Some? { assert Payload(mid.recs[prev.value]) == Payload(a[prev.value]); }
    if next.Some? { assert Payload(mid.recs[next.value]) == Payload(a[next.value]); }
    Apart(mid, first, last, TopOf(h, x), prev, x, next);
  }
}
