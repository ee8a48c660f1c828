/**
 What replacing a node does around it: which trees, places and texts are as before, what the move
 leaves empty, and what the document then reads around the replacement.
 */
module Replacing {
  import opened Wrappers
  import opened LittleEndian
  import opened NodeLayout
  import opened Forest
  import opened ForestEdits
  import opened Links
  import opened Dom
  import opened Tags
  import opened Climbing
  import opened VisibleText

  lemma {:induction false} DepthAlong(f: Forest, g: Forest, r: nat, r': nat, n: nat)
    requires Tidy(f) && Tidy(g) && r < |f.kids| && r' < |g.kids| && f.par[r] == None && n in Pre(f, r)
             && n in Pre(g, r')
    requires forall m :: 0 <= m < |g.kids| && m != r' && n in Pre(g, m) ==> m < |f.par| && g.par[m] == f.par[m]
    ensures Depth(g, r', n) <= Depth(f, r, n)
    decreases if n < |g.rank| then g.rank[n] else 0
  {
    InPreUp(f, r, n);
    InPreUp(g, r', n);
    assert n in Pre(g, n);
    if n != r' {
      var p := g.par[n].value;
      assert ChildOk(g, p, g.kids[p][IndexOf(g.kids[p], n)]);
      forall m | 0 <= m < |g.kids| && m != r' && p in Pre(g, m) ensures m < |f.par| && g.par[m] == f.par[m] {
        InPreDown(g, m, p, n);
      }
      DepthAlong(f, g, r, r', p);
    }
  }

  /** Parents after a replacement: only those of the two nodes involved differ. */
  lemma ReplaceParents(f: Forest, i: nat, x: nat)
    requires Tidy(f) && Attached(f, i) && Attached(f, x) && i !in Pre(f, x)
    ensures var g := Replace(f, i, x);
            && Tidy(g) && |g.kids| == |f.kids| == |g.par| && g.par[i] == None && g.par[x] == f.par[i] && Attached(g, x)
            && forall n :: 0 <= n < |f.par| && n != i && n != x ==> g.par[n] == f.par[n]
  {
    ReplaceTidy(f, i, x);
    DetachLeavesAttached(f, i, x);
    var d, g, p := Detach(f, x), Replace(f, i, x), f.par[i].value;
    assert g.kids[p][IndexOf(d.kids[p], i)] == x;
    assert x in Pre(f, x);
  }

  lemma ReplaceStays(f: Forest, i: nat, x: nat, n: nat)
    requires Tidy(f) && Attached(f, i) && Attached(f, x) && i !in Pre(f, x) && n != i && n != x
    ensures Stays(f, Replace(f, i, x), n)
  {
    if Attached(f, n) {
      ReplaceParents(f, i, x);
      DetachStays(f, x, n);
      DetachLeavesAttached(f, i, x);
      var d, g, p := Detach(f, x), Replace(f, i, x), f.par[i].value;
      var q := f.par[n].value;
      if q == p { assert g.kids[p][IndexOf(d.kids[p], n)] == n; }
    }
  }

  /** A tree without the replaced node's parent reads as it did right after the replacement was unlinked. */
  lemma SwapElsewhere(f: Forest, i: nat, x: nat, t: nat)
    requires Tidy(f) && Attached(f, i) && Attached(f, x) && i !in Pre(f, x) && t < |f.kids|
    requires Tidy(Detach(f, x)) && Tidy(Replace(f, i, x)) && f.par[i].value !in Pre(Detach(f, x), t)
    ensures Pre(Replace(f, i, x), t) == Pre(Detach(f, x), t)
  {
    DetachLeavesAttached(f, i, x);
    TreeInRange(Detach(f, x), t);
    PreAgree(Detach(f, x), Replace(f, i, x), t);
  }

  /** The tree that holds the replacement's old parent afterwards: the document, or the replaced tree. */
  ghost function Home(g: Forest, q: nat, i: nat): nat
    requires Tidy(g) && i < |g.kids|
  {
    if q in Pre(g, i) then i else 0
  }

  lemma OldParentsHome(f: Forest, i: nat, x: nat)
    requires Tidy(f) && 0 < |f.kids| && f.par[0] == None && i < |f.kids| && x < |f.kids| && i in Pre(f, 0)
             && x in Pre(f, 0)
    requires Attached(f, i) && Attached(f, x) && i !in Pre(f, x)
    ensures var g, q := Replace(f, i, x), f.par[x].value;
            && Tidy(g) && |g.kids| == |f.kids| && q in Pre(f, 0) && q in Pre(g, Home(g, q, i)) && q !in Pre(g, x)
            && Depth(g, Home(g, q, i), q) <= Depth(f, 0, q)
  {
    ReplaceParents(f, i, x);
    var d, g, q := Detach(f, x), Replace(f, i, x), f.par[x].value;
    InPreUp(f, 0, i);
    InPreUp(f, 0, x);
    DetachKeepsRest(f, x, 0);
    DetachLeavesAttached(f, i, x);
    var s, t := ReplaceDocument(f, i, x, 0);
    ParentNotBelow(d, i);
    SwapElsewhere(f, i, x, i);
    DetachKeepsTree(f, x);
    ParentOutside(f, i, x);
    SwapElsewhere(f, i, x, x);
    assert forall m :: 0 <= m < |g.kids| && m != Home(g, q, i) && q in Pre(g, m) ==> m != i && m != x;
    DepthAlong(f, g, 0, Home(g, q, i), q);
  }

  /** Whatever holds the old parent afterwards held the replacement itself before. */
  lemma HeldTheReplacement(f: Forest, i: nat, x: nat, n: nat)
    requires Tidy(f) && Attached(f, i) && Attached(f, x) && i !in Pre(f, x) && n < |f.kids|
    ensures Tidy(Replace(f, i, x)) && |Replace(f, i, x).kids| == |f.kids|
    ensures f.par[x].value in Pre(Replace(f, i, x), n) ==> x in Pre(f, n)
  {
    var d, g, p, q := Detach(f, x), Replace(f, i, x), f.par[i].value, f.par[x].value;
    DetachTidy(f, x);
    ReplaceTidy(f, i, x);
    DetachLeavesAttached(f, i, x);
    if q in Pre(g, n) {
      if p !in Pre(d, n) {
        SwapElsewhere(f, i, x, n);
      } else {
        var s, t := ExchangeDocument(d, g, p, IndexOf(d.kids[p], i), i, x, n);
        DetachKeepsTree(f, x);
        ParentOutside(f, i, x);
        SwapElsewhere(f, i, x, x);
        ParentNotBelow(f, x);
        assert q in s || q in t;
      }
      StepShrinks(f, d, x, Skipped, None, n);
      InPreDown(f, n, q, x);
    }
  }

  /** `x` sits where `i` was, and every node that neither holds `x` nor is one of the two has kept its place. */
  ghost predicate PlacesAfter(f: Forest, g: Forest, i: nat, x: nat)
    requires Tidy(f) && i < |f.par| && x < |f.par|
  {
    && |f.par| <= |g.par| && g.par[i] == None && Attached(g, x) && g.par[x] == f.par[i]
    && forall n :: 0 <= n < |f.kids| && n != i && x !in Pre(f, n) ==> Stays(f, g, n)
  }

  /** The previous sibling of the replaced node was pruned away before the program came back to it. */
  ghost predicate PrevGone(g: Forest, prev: Option<nat>) {
    prev.Some? && prev.value < |g.par| && g.par[prev.value] == None
  }

  // ---- what a replacement empties, told from the document before ----

  /** Inside the tree of the replaced node's sibling `v`, nothing but `x` moves. */
  lemma SiblingPlace(f: Forest, i: nat, x: nat, v: nat, w: nat)
    requires Tidy(f) && Attached(f, i) && Attached(f, x) && i !in Pre(f, x) && x < |f.kids| && i < |f.kids|
    requires v < |f.kids| && v != i && Attached(f, v) && f.par[v] == f.par[i] && w in Pre(f, v)
             && w !in Pre(f, x)
    ensures var g := Replace(f, i, x);
            && Tidy(g) && |g.kids| == |f.kids| && w < |f.kids| && w != i && w != x && Attached(f, w)
            && g.par[w] == f.par[w] && Attached(g, w) && f.par[i].value !in Pre(f, w)
  {
    var p := f.par[i].value;
    ReplaceParents(f, i, x);
    ReplaceTidy(f, i, x);
    assert x in Pre(f, x);
    InPreUp(f, v, w);
    ParentNotBelow(f, v);
    assert w != i by {
      assert Kin(f, p, f.kids[p]) && ChildOk(f, p, f.kids[p][IndexOf(f.kids[p], i)])
             && ChildOk(f, p, f.kids[p][IndexOf(f.kids[p], v)]);
      if w == i { InPreUp(f, v, i); }
    }
    assert p !in Pre(f, w) by {
      if p in Pre(f, w) { PreTransitive(f, v, w, p); }
    }
    ReplaceStays(f, i, x, w);
  }

  /** Inside the tree of the replaced node's sibling `v`, the replacement only takes `x` out. */
  lemma SiblingTree(a: Arena, f: Forest, pool: Bytes, b: Arena, ink: Ink, i: nat, x: nat, v: nat, w: nat)
    requires Linked(a, f) && Attached(f, i) && Attached(f, x) && i !in Pre(f, x) && x < |a| && i < |a|
             && Extends(a, pool, b, pool)
    requires |b| == |a| && v < |a| && v != i && v != x && Attached(f, v) && f.par[v] == f.par[i] && w in Pre(f, v)
             && w < |a| && w !in Pre(f, x)
    ensures var g := Replace(f, i, x);
            && Tidy(g) && |g.kids| == |a| && b[w].tag == a[w].tag && w != i && Attached(f, w) && g.par[w] == f.par[w]
               && Attached(g, w)
            && (if w == f.par[x].value then (g.kids[w] == [] <==> f.kids[w] == [x]) else g.kids[w] == f.kids[w])
            && Tidy(Detach(f, x)) && InkSeen(b, pool, ink, Pre(g, w)) == InkSeen(a, pool, ink, Pre(Detach(f, x), w))
  {
    var g, d, p := Replace(f, i, x), Detach(f, x), f.par[i].value;
    SiblingPlace(f, i, x, v, w);
    DetachTidy(f, x);
    DetachLeavesAttached(f, i, x);
    assert Payload(b[w]) == Payload(a[w]);
    StepShrinks(f, d, x, Skipped, None, w);
    SwapElsewhere(f, i, x, w);
    TreeInRange(d, w);
    SeenKept(a, pool, b, pool, ink, Pre(d, w));
    assert w != p by { assert w in Pre(f, w); }
    if w == f.par[x].value {
      var k := IndexOf(f.kids[w], x);
      assert d.kids[w] == Cut(f.kids[w], k) && g.kids[w] == d.kids[w];
      if |f.kids[w]| == 1 { assert f.kids[w] == [x]; }
    }
  }

  /** The climb that prunes after a replacement, read off the document before, inside the sibling's tree. */
  lemma {:induction false} ClimbAgrees(a: Arena, f: Forest, pool: Bytes, b: Arena, ink: Ink, i: nat, x: nat, v: nat,
      c: nat)
    requires Linked(a, f) && Attached(f, i) && Attached(f, x) && i !in Pre(f, x) && x < |a| && i < |a|
             && Extends(a, pool, b, pool)
    requires |b| == |a| && v < |a| && v != i && v != x && Attached(f, v) && f.par[v] == f.par[i]
    requires c in Pre(f, v) && c < |a| && c != v && c !in Pre(f, x) && x in Pre(f, c)
    ensures Tidy(Replace(f, i, x)) && |Replace(f, i, x).kids| == |a|
    ensures Goes(b, Replace(f, i, x), pool, ink, c, v) <==> Goes(a, f, pool, ink, c, v)
    decreases f.rank[c]
  {
    ClimbStep(a, f, pool, b, ink, i, x, v, c);
    if f.par[c].value != v {
      ClimbAgrees(a, f, pool, b, ink, i, x, v, f.par[c].value);
    }
  }

  /** One step of that climb, in both documents. */
  lemma ClimbStep(a: Arena, f: Forest, pool: Bytes, b: Arena, ink: Ink, i: nat, x: nat, v: nat, c: nat)
    requires Linked(a, f) && Attached(f, i) && Attached(f, x) && i !in Pre(f, x) && x < |a| && i < |a|
             && Extends(a, pool, b, pool)
    requires |b| == |a| && v < |a| && v != i && v != x && Attached(f, v) && f.par[v] == f.par[i]
    requires c in Pre(f, v) && c < |a| && c != v && c !in Pre(f, x) && x in Pre(f, c)
    ensures var g := Replace(f, i, x);
            Tidy(g) && |g.kids| == |a| && Attached(f, c) && Attached(g, c) && g.par[c] == f.par[c]
    ensures var g, w := Replace(f, i, x), f.par[c].value;
            && w < |a| && w in Pre(f, v) && w !in Pre(f, x) && x in Pre(f, w) && f.rank[w] < f.rank[c]
            && Attached(f, w) && Attached(g, w)
            && (HollowUp(b, g, pool, ink, w, c) <==> HollowUp(a, f, pool, ink, w, c))
  {
    ParentHolds(f, x, v, c);
    var g, w := Replace(f, i, x), f.par[c].value;
    SiblingPlace(f, i, x, v, c);
    SiblingPlace(f, i, x, v, w);
    forall m | m in Pre(f, w) && m !in Pre(f, c) ensures m < |f.kids| && m < |g.kids| && g.kids[m] == f.kids[m] {
      InPreUp(f, w, m);
      ReplacedElsewhere(f, i, x, c, m);
    }
    HollowAgrees(a, f, pool, b, g, pool, ink, c, w);
  }

  /** A replacement changes the lists of the two parents only; that of `x` is below whatever holds `x`. */
  lemma ReplacedElsewhere(f: Forest, i: nat, x: nat, c: nat, m: nat)
    requires Tidy(f) && Attached(f, i) && Attached(f, x) && i !in Pre(f, x) && x < |f.kids| && m < |f.kids|
    requires c < |f.kids| && x in Pre(f, c) && x != c && m !in Pre(f, c) && m != f.par[i].value
    ensures Tidy(Replace(f, i, x)) && |Replace(f, i, x).kids| == |f.kids|
    ensures Replace(f, i, x).kids[m] == f.kids[m]
  {
    ReplaceParents(f, i, x);
    InPreUp(f, c, x);
    DetachLeavesAttached(f, i, x);
  }

  /** The parent of a node that holds `x` holds it as well. */
  lemma ParentHolds(f: Forest, x: nat, v: nat, c: nat)
    requires Tidy(f) && Attached(f, x) && x < |f.kids| && v < |f.kids|
    requires c in Pre(f, v) && c < |f.kids| && c != v && c !in Pre(f, x) && x in Pre(f, c)
    ensures Attached(f, c)
    ensures var w := f.par[c].value;
            && w < |f.kids| && w in Pre(f, v) && w !in Pre(f, x) && x in Pre(f, w) && f.rank[w] < f.rank[c]
            && w != f.par[x].value
  {
    InPreUp(f, v, c);
    var w := f.par[c].value;
    assert ChildOk(f, w, f.kids[w][IndexOf(f.kids[w], c)]);
    InPreDown(f, w, w, c) by { assert w in Pre(f, w); }
    PreTransitive(f, w, c, x);
    HolderOutside(f, x, w);
    HigherThanParent(f, x, c);
  }

  /** Above a node that holds `x` without being its parent there is no parent of `x`. */
  lemma HigherThanParent(f: Forest, x: nat, c: nat)
    requires Tidy(f) && Attached(f, x) && Attached(f, c) && x in Pre(f, c) && c !in Pre(f, x)
    ensures f.par[c].value != f.par[x].value
  {
    var w := f.par[c].value;
    assert ChildOk(f, w, f.kids[w][IndexOf(f.kids[w], c)]);
    assert x in Pre(f, x);
    if w == f.par[x].value {
      assert ChildOk(f, w, f.kids[w][IndexOf(f.kids[w], x)]);
      SiblingsApart(f, w, x, c, x);
    }
  }

  /** A node that holds `x` and is not `x` is not in the tree of `x`. */
  lemma HolderOutside(f: Forest, x: nat, c: nat)
    requires Tidy(f) && x < |f.kids| && c < |f.kids| && x in Pre(f, c) && x != c
    ensures c !in Pre(f, x)
  {
    InPreUp(f, c, x);
    if c in Pre(f, x) { InPreUp(f, x, c); }
  }

  /** What pruning takes after a replacement, told from the document before it. */
  lemma EmptiedGoes(a: Arena, f: Forest, pool: Bytes, b: Arena, ink: Ink, i: nat, x: nat, v: nat)
    requires Linked(a, f) && Attached(f, i) && Attached(f, x) && i !in Pre(f, x) && x < |a| && i < |a|
             && Extends(a, pool, b, pool)
    requires Linked(b, Replace(f, i, x)) && |b| == |a| && v < |a| && v != i && Attached(f, v) && f.par[v] == f.par[i]
    ensures Removes(b, Replace(f, i, x), pool, ink, f.par[x].value, v) <==> Goes(a, f, pool, ink, x, v)
  {
    var g, q := Replace(f, i, x), f.par[x].value;
    ReplaceParents(f, i, x);
    assert ChildOk(f, q, f.kids[q][IndexOf(f.kids[q], x)]);
    if x !in Pre(f, v) || x == v {
      if Goes(a, f, pool, ink, x, v) { GoesAbove(a, f, pool, ink, x, v); }
      if Removes(b, g, pool, ink, q, v) {
        if v != q { GoesAbove(b, g, pool, ink, q, v); }
        assert q in Pre(g, q);
        HeldTheReplacement(f, i, x, v);
        OldParentOutside(f, i, x);
      }
    } else {
      InPreUp(f, v, x);
      InPreDown(f, q, q, x) by { assert q in Pre(f, q); }
      HolderOutside(f, x, q);
      SiblingTree(a, f, pool, b, ink, i, x, v, q);
      ParentEmptied(a, f, pool, b, g, ink, x, q);
      if q != v { ClimbAgrees(a, f, pool, b, ink, i, x, v, q); }
    }
  }

  lemma ParentEmptied(a: Arena, f: Forest, pool: Bytes, b: Arena, g: Forest, ink: Ink, x: nat, q: nat)
    requires Linked(a, f) && Linked(b, g) && Attached(f, x) && q < |a| == |b| && b[q].tag == a[q].tag
             && f.par[x] == Some(q)
    requires Tidy(Detach(f, x)) && (g.kids[q] == [] <==> f.kids[q] == [x]) && a[q].body.Branch? && b[q].body.Branch?
    requires InkSeen(b, pool, ink, Pre(g, q)) == InkSeen(a, pool, ink, Pre(Detach(f, x), q))
    ensures Prunable(b, g, pool, ink, q) <==> HollowUp(a, f, pool, ink, q, x)
  {
    if g.kids[q] == [] { ChildlessUnseen(b, g, pool, ink, q); }
  }

  /** An inline element whose child is moved away is emptied exactly if that was all it had and it is no line break. */
  lemma DirectChild(a: Arena, f: Forest, pool: Bytes, ink: Ink, x: nat, v: nat)
    requires Tidy(f) && Attached(f, x) && |a| == |f.kids| && f.par[x] == Some(v) && v < |a| && Attached(f, v)
             && IsInline(a[v].tag)
    ensures Goes(a, f, pool, ink, x, v) <==> f.kids[v] == [x] && a[v].tag != BR
  {
    ClassesApart(a[v].tag);
    assert ChildOk(f, v, f.kids[v][IndexOf(f.kids[v], x)]);
    if Goes(a, f, pool, ink, v, v) { GoesAbove(a, f, pool, ink, v, v); }
  }

  /** What the first half of a replacement leaves for the second: `x` in place, the old neighbours in place or loose. */
  ghost predicate Replaced(a: Arena, f: Forest, pool: Bytes, b: Arena, g: Forest, pool': Bytes, ink: Ink, i: nat,
      x: nat)
    requires Linked(a, f) && Attached(f, i) && Attached(f, x) && i !in Pre(f, x) && i < |a|
  {
    && Linked(b, g) && Extends(a, pool, b, pool') && x < |f.par| && PlacesAfter(f, g, i, x)
    && Tidy(Replace(f, i, x)) && |Replace(f, i, x).kids| == |a| <= |g.kids|
    && f.par[x].value < |a|
    && (InkAsIn(a, pool, Replace(f, i, x), b, g, pool', ink) <==>
       Harmless(a, Replace(f, i, x), pool, ink, f.par[x].value))
    && (a[i].prev.Some? ==> a[i].prev.value < |a| && (Attached(g, a[i].prev.value) || g.par[a[i].prev.value] == None))
    && (a[i].next.Some? ==> a[i].next.value < |a|)
    && (a[i].prev.Some? ==> (PrevGone(g, a[i].prev) <==> Goes(a, f, pool, ink, x, a[i].prev.value)))
  }

  lemma ReplacedFacts(a: Arena, f: Forest, pool: Bytes, b: Arena, c: Arena, h: Forest, pool': Bytes, ink: Ink, i: nat,
      x: nat, kept: nat)
    requires Linked(a, f) && 0 < |a| && f.par[0] == None && i < |a| && x < |a| && i in Pre(f, 0) && x in Pre(f, 0)
             && TextsOk(a, |pool|)
    requires Attached(f, i) && Attached(f, x) && i !in Pre(f, x)
    requires Linked(b, Replace(f, i, x)) && SamePayloads(a, b) && |b| == |a| && Linked(c, h)
    requires var g, q := Replace(f, i, x), f.par[x].value;
             && q in Pre(g, Home(g, q, i)) && Pruned(b, g, pool, c, h, pool', ink, Home(g, q, i), q, kept)
             && q < |b| && RemovedAre(b, g, pool, ink, h, q)
    ensures Replaced(a, f, pool, c, h, pool', ink, i, x)
  {
    var g, q := Replace(f, i, x), f.par[x].value;
    ReplaceParents(f, i, x);
    OldParentsHome(f, i, x);
    SiblingsAttached(a, f, i);
    assert Extends(a, pool, b, pool) by { assert forall m :: 0 <= m < |a| ==> TextIn(a, |pool|, m); }
    ExtendsOn(a, pool, b, pool, c, pool');
    ReplacedPlaces(f, g, h, i, x);
    ReplacedInk(a, pool, b, c, h, pool', ink, g, q);
    if a[i].prev.Some? {
      var v := a[i].prev.value;
      if v != x { ReplaceStays(f, i, x, v); }
      assert Stays(g, h, v) || h.par[v] == None;
      EmptiedGoes(a, f, pool, b, ink, i, x, v);
    }
  }

  /** Every node has kept its parent and is still listed there. */
  ghost predicate AllStay(f: Forest, g: Forest) {
    |f.par| <= |g.par| && forall n :: 0 <= n < |f.par| ==> g.par[n] == f.par[n] && Stays(f, g, n)
  }

  lemma AllStayOn(f: Forest, g: Forest, h: Forest)
    requires AllStay(f, g) && AllStay(g, h)
    ensures AllStay(f, h)
  {
  }

  lemma StillAfter(f: Forest, g: Forest, h: Forest, i: nat, x: nat)
    requires Tidy(f) && i < |f.par| && x < |f.par| && PlacesAfter(f, g, i, x) && AllStay(g, h)
    ensures PlacesAfter(f, h, i, x)
  {
    assert Stays(g, h, x);
    forall n | 0 <= n < |f.kids| && n != i && x !in Pre(f, n) ensures Stays(f, h, n) {
      assert Stays(f, g, n) && Stays(g, h, n);
    }
  }

  lemma ReplacedPlaces(f: Forest, g: Forest, h: Forest, i: nat, x: nat)
    requires Tidy(f) && Attached(f, i) && Attached(f, x) && i !in Pre(f, x) && i < |f.kids| && x < |f.kids|
    requires g == Replace(f, i, x) && Tidy(g) && Tidy(h) && OthersStay(g, h, f.par[x].value) && LooseStay(g, h)
    ensures PlacesAfter(f, h, i, x)
  {
    ReplaceParents(f, i, x);
    OldParentOutside(f, i, x);
    forall n | 0 <= n < |f.kids| && n != i && x !in Pre(f, n) ensures Stays(f, h, n) {
      assert n != x by { assert x in Pre(f, x); }
      HeldTheReplacement(f, i, x, n);
      ReplaceStays(f, i, x, n);
      assert Stays(g, h, n);
    }
    assert Stays(g, h, x);
  }

  lemma OldParentOutside(f: Forest, i: nat, x: nat)
    requires Tidy(f) && Attached(f, i) && Attached(f, x) && i !in Pre(f, x) && x < |f.kids|
    ensures Tidy(Replace(f, i, x)) && x < |Replace(f, i, x).kids| && f.par[x].value !in Pre(Replace(f, i, x), x)
  {
    DetachTidy(f, x);
    ReplaceTidy(f, i, x);
    DetachKeepsTree(f, x);
    ParentOutside(f, i, x);
    SwapElsewhere(f, i, x, x);
    ParentNotBelow(f, x);
  }

  /** The same texts on other records: the climb takes the same nodes. */
  lemma {:induction false} GoesKept(a: Arena, pool: Bytes, b: Arena, ink: Ink, f: Forest, c: nat, v: nat)
    requires Tidy(f) && |a| == |b| == |f.kids| && Extends(a, pool, b, pool)
    ensures Goes(b, f, pool, ink, c, v) <==> Goes(a, f, pool, ink, c, v)
    decreases if c < |f.rank| then f.rank[c] else 0
  {
    if Attached(f, c) {
      var w := f.par[c].value;
      assert ChildOk(f, w, f.kids[w][IndexOf(f.kids[w], c)]);
      TreeInRange(f, w);
      HollowAgrees(a, f, pool, b, f, pool, ink, c, w);
      if w != v { GoesKept(a, pool, b, ink, f, w, v); }
    }
  }

  lemma HarmlessKept(a: Arena, pool: Bytes, b: Arena, ink: Ink, f: Forest, index: nat)
    requires Tidy(f) && |a| == |b| == |f.kids| && index < |a| && Extends(a, pool, b, pool)
    ensures Harmless(b, f, pool, ink, index) <==> Harmless(a, f, pool, ink, index)
  {
    TreeInRange(f, index);
    SeenKept(a, pool, b, pool, ink, Pre(f, index));
    assert Payload(b[index]) == Payload(a[index]);
    forall v | 0 <= v < |f.kids|
        ensures Removes(b, f, pool, ink, index, v) <==> Removes(a, f, pool, ink, index, v)
        ensures InkAll(b, pool, ink, Pre(f, v)) == InkAll(a, pool, ink, Pre(f, v)) {
      GoesKept(a, pool, b, ink, f, index, v);
      TreeInRange(f, v);
      InkKept(a, pool, b, pool, ink, Pre(f, v));
    }
  }

  /** The visible text is that of the bare replacement exactly if pruning that document is harmless. */
  lemma ReplacedInk(a: Arena, pool: Bytes, b: Arena, c: Arena, h: Forest, pool': Bytes, ink: Ink, g: Forest, q: nat)
    requires Tidy(g) && Tidy(h) && |a| == |g.kids| == |b| <= |h.kids| && Extends(a, pool, b, pool) && q < |a|
    requires InkAsIn(b, pool, g, c, h, pool', ink) <==> BlankGone(b, g, pool, ink, h)
    requires RemovedAre(b, g, pool, ink, h, q)
    ensures InkAsIn(a, pool, g, c, h, pool', ink) <==> Harmless(a, g, pool, ink, q)
  {
    HarmlessIs(b, g, pool, ink, h, q);
    HarmlessKept(a, pool, b, ink, g, q);
    forall t | 0 <= t < |g.kids| ensures InkAll(b, pool, ink, Pre(g, t)) == InkAll(a, pool, ink, Pre(g, t)) {
      TreeInRange(g, t);
      InkKept(a, pool, b, pool, ink, Pre(g, t));
    }
    assert InkAsIn(a, pool, g, c, h, pool', ink) <==> InkAsIn(b, pool, g, c, h, pool', ink) by {
      SameAsIn(a, pool, b, g, c, h, pool', ink);
    }
  }

  lemma SameAsIn(a: Arena, pool: Bytes, b: Arena, g: Forest, c: Arena, h: Forest, pool': Bytes, ink: Ink)
    requires Tidy(g) && Tidy(h) && |g.kids| <= |h.kids|
    requires forall t :: 0 <= t < |g.kids| ==> InkAll(b, pool, ink, Pre(g, t)) == InkAll(a, pool, ink, Pre(g, t))
    ensures InkAsIn(a, pool, g, c, h, pool', ink) <==> InkAsIn(b, pool, g, c, h, pool', ink)
  {
    forall t | 0 <= t < |g.kids|
        ensures InkAll(c, pool', ink, Pre(h, t)) == InkAll(a, pool, ink, Pre(g, t))
                <==> InkAll(c, pool', ink, Pre(h, t)) == InkAll(b, pool, ink, Pre(g, t)) {
    }
  }
}
