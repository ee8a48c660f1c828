/**
 What stands around a replacement once its old previous sibling has been pruned away: the stretch
 of the sibling and of the replaced node now reads as the replacement's tree alone.
 */
module ReadAround {
  import opened Wrappers
  import opened LittleEndian
  import opened NodeLayout
  import opened Forest
  import opened ForestEdits
  import opened Links
  import opened RevWalk
  import opened Spaces
  import opened Tags
  import opened Climbing
  import opened Replacing
  import opened VisibleText

  // ---- the climb past the sibling ----

  /** A climb that has reached `v` goes on exactly as one that starts there. */
  lemma {:induction false} GoesOn(a: Arena, f: Forest, pool: Bytes, ink: Ink, c: nat, v: nat, n: nat)
    requires Tidy(f) && |a| == |f.kids| && v < |a| && n < |a| && (c == v || Goes(a, f, pool, ink, c, v))
    requires n !in Pre(f, v)
    ensures Goes(a, f, pool, ink, c, n) <==> Goes(a, f, pool, ink, v, n)
    decreases if c < |f.rank| then f.rank[c] else 0
  {
    if c != v {
      var w := f.par[c].value;
      assert ChildOk(f, w, f.kids[w][IndexOf(f.kids[w], c)]);
      assert v in Pre(f, v);
      if w != v { GoesAbove(a, f, pool, ink, w, v); }
      assert w != n;
      GoesOn(a, f, pool, ink, w, v, n);
    }
  }

  /** What a replacement by `x`, below `i`'s inline previous sibling `v`, starts from. */
  ghost predicate Starts(a: Arena, f: Forest, i: nat, x: nat, v: nat) {
    && Linked(a, f) && Attached(f, i) && Attached(f, x) && i < |a| && x < |a| && v < |a| && i !in Pre(f, x)
    && a[i].prev == Some(v) && !IsBlock(a[v].tag) && x in Pre(f, v) && x != v
  }

  /** The forest right after the bare replacement, and what pruning from `x`'s old parent made of it. */
  ghost predicate Climbed(a: Arena, f: Forest, pool: Bytes, b: Arena, h: Forest, ink: Ink, i: nat, x: nat, v: nat)
    requires Starts(a, f, i, x, v)
  {
    var g, q := Replace(f, i, x), f.par[x].value;
    && Linked(b, g) && |b| == |a| && Extends(a, pool, b, pool) && q < |b| && Tidy(h) && |a| <= |h.kids|
    && KidsAfter(b, g, h) && OthersStay(g, h, q) && LooseStay(g, h) && RemovedAre(b, g, pool, ink, h, q)
    && h.par[v] == None
  }

  lemma PrevSibling(a: Arena, f: Forest, i: nat, x: nat, v: nat) returns (k: nat)
    requires Starts(a, f, i, x, v)
    ensures var p := f.par[i].value;
            && p < |a| && k + 1 < |f.kids[p]| && f.kids[p][k] == v && f.kids[p][k + 1] == i && v != i
            && ChildOk(f, p, v) && ChildOk(f, p, i) && Attached(f, v) && f.par[x].value in Pre(f, v)
            && f.par[x].value != p && NoDup(f.kids[p]) && x !in f.kids[p]
  {
    Neighbours(a, f, i);
    var p := f.par[i].value;
    k := IndexOf(f.kids[p], i) - 1;
    assert Kin(f, p, f.kids[p]) && NoDup(f.kids[p]) && ChildOk(f, p, f.kids[p][k]) && ChildOk(f, p, f.kids[p][k + 1]);
    InPreUp(f, v, x);
    ParentNotBelow(f, v);
    forall j | 0 <= j < |f.kids[p]| ensures f.kids[p][j] != x { assert ChildOk(f, p, f.kids[p][j]); }
  }

  /** The lists the replacement leaves: only those of the two parents differ. */
  lemma ReplacedLists(a: Arena, f: Forest, i: nat, x: nat, v: nat, k: nat)
    requires Starts(a, f, i, x, v) && k + 1 < |f.kids[f.par[i].value]| && f.kids[f.par[i].value][k + 1] == i
    requires NoDup(f.kids[f.par[i].value]) && f.par[x].value != f.par[i].value
    ensures var g, p := Replace(f, i, x), f.par[i].value;
            var ks: Ids := f.kids[p][k + 1 := x];
            && |g.kids| == |a| && g.kids[p] == ks
            && forall m :: 0 <= m < |a| && m != p && m != f.par[x].value ==> g.kids[m] == f.kids[m]
  {
    DetachLeavesAttached(f, i, x);
    var d, p := Detach(f, x), f.par[i].value;
    assert d.kids[p] == f.kids[p] && IndexOf(d.kids[p], i) == k + 1;
  }

  // ---- lists that no pruning touched ----

  /** A list is as before if none of its members that hold `x` went. */
  lemma ListUnmoved(a: Arena, f: Forest, pool: Bytes, b: Arena, h: Forest, ink: Ink, i: nat, x: nat, v: nat, m: nat)
    requires Starts(a, f, i, x, v) && Climbed(a, f, pool, b, h, ink, i, x, v)
    requires m < |a| && m != f.par[i].value && m != f.par[x].value
    requires forall n :: n in f.kids[m] && n < |f.kids| && x in Pre(f, n) ==> h.par[n].Some?
    ensures h.kids[m] == f.kids[m]
  {
    var g, q := Replace(f, i, x), f.par[x].value;
    var k := PrevSibling(a, f, i, x, v);
    ReplacedLists(a, f, i, x, v, k);
    ReplaceParents(f, i, x);
    forall n | n in g.kids[m] ensures n < |h.par| && h.par[n].Some? {
      assert ChildOk(f, m, f.kids[m][IndexOf(f.kids[m], n)]);
      if x !in Pre(f, n) {
        HeldTheReplacement(f, i, x, n);
        ReplaceStays(f, i, x, n);
        assert Stays(g, h, n);
      }
    }
  }

  /** Beside the sibling's tree, below the same parent, no list changed. */
  lemma BesideUnmoved(a: Arena, f: Forest, pool: Bytes, b: Arena, h: Forest, ink: Ink, i: nat, x: nat, v: nat, s: nat)
    requires Starts(a, f, i, x, v) && Climbed(a, f, pool, b, h, ink, i, x, v)
    requires f.par[i].value < |a| && ChildOk(f, f.par[i].value, s) && s in f.kids[f.par[i].value] && s != v
    ensures forall m :: m in Pre(f, s) ==> m < |a| && h.kids[m] == f.kids[m]
  {
    var p, q := f.par[i].value, f.par[x].value;
    var k := PrevSibling(a, f, i, x, v);
    forall m | m in Pre(f, s) ensures m < |a| && h.kids[m] == f.kids[m] {
      InPreUp(f, s, m);
      ParentNotBelow(f, s);
      if m == q { SiblingsApart(f, p, v, s, q); }
      forall n | n in f.kids[m] && n < |f.kids| ensures x !in Pre(f, n) {
        InPreDown(f, s, m, n);
        SiblingsApart(f, p, v, s, x);
        if x in Pre(f, n) { PreTransitive(f, s, n, x); }
      }
      ListUnmoved(a, f, pool, b, h, ink, i, x, v, m);
    }
  }

  /** The replacement's own tree is as before. */
  lemma OwnTreeUnmoved(a: Arena, f: Forest, pool: Bytes, b: Arena, h: Forest, ink: Ink, i: nat, x: nat, v: nat)
    requires Starts(a, f, i, x, v) && Climbed(a, f, pool, b, h, ink, i, x, v)
    ensures Pre(h, x) == Pre(f, x)
  {
    ParentOutside(f, i, x);
    ParentNotBelow(f, x);
    forall m | m in Pre(f, x) ensures m < |f.kids| && m < |h.kids| && h.kids[m] == f.kids[m] {
      InPreUp(f, x, m);
      forall n | n in f.kids[m] && n < |f.kids| ensures x !in Pre(f, n) {
        assert ChildOk(f, m, f.kids[m][IndexOf(f.kids[m], n)]);
        if x in Pre(f, n) { InPreUp(f, n, x); }
      }
      ListUnmoved(a, f, pool, b, h, ink, i, x, v, m);
    }
    PreAgree(f, h, x);
  }

  /** The tree of `i`'s parent only loses nodes by the replacement. */
  lemma ParentTreeShrinks(a: Arena, f: Forest, i: nat, x: nat, v: nat)
    requires Starts(a, f, i, x, v)
    ensures var g, p := Replace(f, i, x), f.par[i].value;
            && Tidy(g) && p < |g.kids| && p < |f.kids| && forall n :: n in Pre(g, p) ==> n in Pre(f, p)
  {
    var p := f.par[i].value;
    var k := PrevSibling(a, f, i, x, v);
    assert p in Pre(f, p);
    InPreDown(f, p, p, v);
    PreTransitive(f, p, v, x);
    PreTransitive(f, p, v, f.par[x].value);
    var s, t := ReplaceDocument(f, i, x, p);
    StepShrinks(f, Detach(f, x), x, Skipped, None, p);
    forall n | n in Pre(f, x) ensures n in Pre(f, p) { PreTransitive(f, p, x, n); }
    forall n | n in s + t ensures n in Pre(f, p) {
      InPreUp(Detach(f, x), p, n) by { assert n in Pre(Detach(f, x), p); }
    }
  }

  /** While `i`'s parent keeps its place, all above it do: the climb would have taken it first. */
  lemma NoneAboveGone(a: Arena, f: Forest, pool: Bytes, b: Arena, h: Forest, ink: Ink, i: nat, x: nat, v: nat, n: nat)
    requires Starts(a, f, i, x, v) && Climbed(a, f, pool, b, h, ink, i, x, v)
    requires f.par[i].value < |h.par| && h.par[f.par[i].value].Some?
    requires Attached(f, n) && f.par[i].value in Pre(f, n)
    ensures h.par[n].Some?
  {
    var g, p, q := Replace(f, i, x), f.par[i].value, f.par[x].value;
    var k := PrevSibling(a, f, i, x, v);
    if n != p && h.par[n] == None {
      InPreUp(f, n, p);
      InPreUp(f, v, x);
      InPreUp(f, v, q);
      ReplaceParents(f, i, x);
      ReplaceStays(f, i, x, n);
      ReplaceStays(f, i, x, v);
      ParentNotBelow(g, v);
      InPreDown(g, p, p, v) by { assert p in Pre(g, p); }
      if n in Pre(g, v) {
        PreTransitive(g, p, v, n);
        ParentTreeShrinks(a, f, i, x, v);
        InPreUp(f, p, n);
      }
      assert Removes(b, g, pool, ink, q, n) && Removes(b, g, pool, ink, q, v);
      GoesOn(b, g, pool, ink, q, v, n);
      GoesOn(b, g, pool, ink, q, v, p);
      assert Goes(b, g, pool, ink, v, p);
    }
  }

  /** Outside the tree of `i`'s parent nothing changed, if the parent keeps its place. */
  lemma OutsideUnmoved(a: Arena, f: Forest, pool: Bytes, b: Arena, h: Forest, ink: Ink, i: nat, x: nat, v: nat, r: nat)
    requires Starts(a, f, i, x, v) && Climbed(a, f, pool, b, h, ink, i, x, v)
    requires f.par[i].value < |h.par| && f.par[i].value < |a| && r < |a| && f.par[i].value in Pre(f, r)
    requires r == f.par[i].value || h.par[f.par[i].value].Some?
    ensures SameOutside(f, h, r, f.par[i].value)
  {
    var p, q := f.par[i].value, f.par[x].value;
    var k := PrevSibling(a, f, i, x, v);
    assert p in Pre(f, p);
    InPreDown(f, p, p, v);
    PreTransitive(f, p, v, x);
    PreTransitive(f, p, v, q);
    forall m | m in Pre(f, r) && m !in Pre(f, p) ensures m < |a| && h.kids[m] == f.kids[m] {
      InPreUp(f, r, m);
      forall n | n in f.kids[m] && n < |f.kids| && x in Pre(f, n) ensures h.par[n].Some? {
        assert ChildOk(f, m, f.kids[m][IndexOf(f.kids[m], n)]);
        PreNested(f, n, p, x);
        if n in Pre(f, p) { InPreUp(f, p, n); }
        if p in Pre(f, n) { NoneAboveGone(a, f, pool, b, h, ink, i, x, v, n); }
      }
      ListUnmoved(a, f, pool, b, h, ink, i, x, v, m);
    }
  }

  /** Siblings other than `v` and `i` read as before. */
  lemma SiblingsUnmoved(a: Arena, f: Forest, pool: Bytes, b: Arena, h: Forest, ink: Ink, i: nat, x: nat, v: nat,
      cs: Ids)
    requires Starts(a, f, i, x, v) && Climbed(a, f, pool, b, h, ink, i, x, v)
    requires f.par[i].value < |a| && Kin(f, f.par[i].value, cs) && Kin(h, f.par[i].value, cs)
    requires forall j :: 0 <= j < |cs| ==> cs[j] in f.kids[f.par[i].value] && cs[j] != v
    ensures PreAll(h, f.par[i].value, cs) == PreAll(f, f.par[i].value, cs)
  {
    var p := f.par[i].value;
    forall m | m in PreAll(f, p, cs) ensures m < |f.kids| && m < |h.kids| && h.kids[m] == f.kids[m] {
      InPreAll(f, p, cs, m);
      var j :| 0 <= j < |cs| && m in Pre(f, cs[j]);
      assert ChildOk(f, p, cs[j]);
      BesideUnmoved(a, f, pool, b, h, ink, i, x, v, cs[j]);
    }
    PreAllAgree(f, h, p, cs);
  }

  /** Where `v` and then `i` stood, the document reads `x` alone, and everything around them as before. */
  lemma AroundReplacement(a: Arena, f: Forest, pool: Bytes, b: Arena, h: Forest, ink: Ink, i: nat, x: nat, v: nat,
      r: nat) returns (before: Ids, after: Ids)
    requires Starts(a, f, i, x, v) && Climbed(a, f, pool, b, h, ink, i, x, v)
    requires f.par[i].value < |h.par| && f.par[i].value < |a| && r < |a| && f.par[i].value in Pre(f, r)
    requires r == f.par[i].value || h.par[f.par[i].value].Some?
    ensures Pre(f, r) == before + Pre(f, v) + Pre(f, i) + after && Pre(h, r) == before + Pre(f, x) + after
  {
    var g, p := Replace(f, i, x), f.par[i].value;
    var k := PrevSibling(a, f, i, x, v);
    var ks := f.kids[p];
    var left, right := ks[..k], ks[k + 2..];
    SplitPair(ks, k, v, i);
    NewList(a, f, pool, b, h, ink, i, x, v, k);
    KinParts(f, p, left, [v, i], right);
    KinParts(h, p, left, [x], right);
    SiblingsUnmoved(a, f, pool, b, h, ink, i, x, v, left);
    SiblingsUnmoved(a, f, pool, b, h, ink, i, x, v, right);
    OutsideUnmoved(a, f, pool, b, h, ink, i, x, v, r);
    assert ChildOk(h, p, [x][0]);
    before, after := TwoForOne(f, h, r, p, left, v, i, x, right);
    OwnTreeUnmoved(a, f, pool, b, h, ink, i, x, v);
  }

  /** Exchanging two neighbours in a list for one node exchanges their two trees for its tree. */
  lemma TwoForOne(f: Forest, h: Forest, r: nat, p: nat, left: Ids, v: nat, i: nat, x: nat, right: Ids)
      returns (before: Ids, after: Ids)
    requires Tidy(f) && Tidy(h) && r < |f.kids| && r < |h.kids| && p < |f.kids| && p < |h.kids|
    requires p in Pre(f, r) && SameOutside(f, h, r, p) && ChildOk(f, p, v) && ChildOk(f, p, i) && ChildOk(h, p, x)
    requires f.kids[p] == left + [v, i] + right && h.kids[p] == left + [x] + right
    requires Kin(f, p, left) && Kin(h, p, left) && PreAll(h, p, left) == PreAll(f, p, left)
    requires Kin(f, p, right) && Kin(h, p, right) && PreAll(h, p, right) == PreAll(f, p, right)
    ensures Pre(f, r) == before + Pre(f, v) + Pre(f, i) + after && Pre(h, r) == before + Pre(h, x) + after
  {
    TwoTrees(f, p, v, i);
    PreAllOne(h, p, x);
    var a0;
    a0, before, after := EditList(f, h, r, p, left, [v, i], [x], right);
    FourParts(before, Pre(f, v), Pre(f, i), after);
  }

  lemma SplitPair(ks: Ids, k: nat, v: nat, i: nat)
    requires k + 1 < |ks| && ks[k] == v && ks[k + 1] == i && NoDup(ks)
    ensures ks == ks[..k] + [v, i] + ks[k + 2..]
    ensures var left := ks[..k]; forall j :: 0 <= j < |left| ==> left[j] in ks && left[j] != v
    ensures var right := ks[k + 2..]; forall j :: 0 <= j < |right| ==> right[j] in ks && right[j] != v
  {
  }

  lemma FourParts(s: Ids, t: Ids, u: Ids, w: Ids)
    ensures s + (t + u) + w == s + t + u + w
  {
  }

  lemma TwoTrees(f: Forest, p: nat, v: nat, i: nat)
    requires Tidy(f) && p < |f.kids| && ChildOk(f, p, v) && ChildOk(f, p, i)
    ensures Kin(f, p, [v, i]) && PreAll(f, p, [v, i]) == Pre(f, v) + Pre(f, i)
  {
    PreAllOne(f, p, v);
    PreAllOne(f, p, i);
    assert [v] + [i] == [v, i];
    PreAllAppend(f, p, [v], [i]);
  }

  /** The list that held `v` and `i` holds `x` in their place. */
  lemma NewList(a: Arena, f: Forest, pool: Bytes, b: Arena, h: Forest, ink: Ink, i: nat, x: nat, v: nat, k: nat)
    requires Starts(a, f, i, x, v) && Climbed(a, f, pool, b, h, ink, i, x, v)
    requires f.par[i].value < |a| && k + 1 < |f.kids[f.par[i].value]| && f.kids[f.par[i].value][k + 1] == i
             && f.kids[f.par[i].value][k] == v
    ensures var p := f.par[i].value; h.kids[p] == f.kids[p][..k] + [x] + f.kids[p][k + 2..]
  {
    var g, p := Replace(f, i, x), f.par[i].value;
    var j := PrevSibling(a, f, i, x, v);
    ReplacedLists(a, f, i, x, v, k);
    ReplaceParents(f, i, x);
    ReplaceStays(f, i, x, v);
    assert Payload(b[v]) == Payload(a[v]);
    assert ListWithout(g, h, v);
    CutThere(f.kids[p], g.kids[p], k, v, x);
  }

  lemma CutThere(ks: Ids, now: Ids, k: nat, v: nat, x: nat)
    requires k + 1 < |ks| && ks[k] == v && |now| == |ks| && NoDup(now)
    requires now == (var moved: Ids := ks[k + 1 := x]; moved)
    ensures v in now && Cut(now, IndexOf(now, v)) == ks[..k] + [x] + ks[k + 2..]
  {
    assert now[k] == v;
  }

  // ---- the texts around, told from the document before ----

  /**
   The top of the tree the replacement stands in once its old previous sibling is gone: the document,
   unless the parent is a body or a block in which the test then sees no text, and so goes as well.
   */
  ghost function TreeAfter(a: Arena, f: Forest, pool: Bytes, ink: Ink, i: nat, x: nat): nat
    requires Linked(a, f) && Attached(f, i) && Attached(f, x) && i !in Pre(f, x) && i < |a|
  {
    ReplaceParents(f, i, x);
    var p, g := f.par[i].value, Replace(f, i, x);
    if Attached(f, p) && a[i].prev.Some? && Attached(g, a[i].prev.value)
       && HollowUp(a, g, pool, ink, p, a[i].prev.value)
    then p
    else 0
  }

  /**
   The text before `v`'s place in the order ends in a space, or the text from `below` on, read on
   behind the `n` nodes from `i` on, starts with one.
   */
  ghost predicate SpaceAround(a: Arena, pool: Bytes, order: Ids, v: nat, i: nat, n: nat, below: Ids) {
    && v in order && i in order && IndexOf(order, i) + n <= |order|
    && (SpaceLast(a, pool, order[..IndexOf(order, v)]) || SpaceFirst(a, pool, below + order[IndexOf(order, i) + n..]))
  }

  /**
   The text before `i`'s previous sibling ends in a space, or the text from the replacement on, read
   without the tree of `i`, starts with one.
   */
  ghost predicate SpaceKept(a: Arena, f: Forest, pool: Bytes, ink: Ink, i: nat, x: nat)
    requires Linked(a, f) && Attached(f, i) && Attached(f, x) && i !in Pre(f, x) && i < |a| && x < |f.kids|
  {
    TreeAfter(a, f, pool, ink, i, x) < |f.kids| && a[i].prev.Some? &&
    SpaceAround(a, pool, Pre(f, TreeAfter(a, f, pool, ink, i, x)), a[i].prev.value, i, |Pre(f, i)|, Pre(f, x)[1..])
  }

  /** The parent goes too exactly if it is a body or a block in which the test then sees no text. */
  lemma ParentGoes(a: Arena, f: Forest, pool: Bytes, b: Arena, h: Forest, ink: Ink, i: nat, x: nat, v: nat)
    requires Starts(a, f, i, x, v) && Climbed(a, f, pool, b, h, ink, i, x, v)
    requires 0 < |a| && f.par[0] == None && i in Pre(f, 0) && i != 0
    ensures var p, r := f.par[i].value, TreeAfter(a, f, pool, ink, i, x);
            && p < |a| && p < |h.par| && r < |a| && p in Pre(f, r) && r < |h.par| && h.par[r] == None
            && (r == p || h.par[p].Some?)
  {
    var g, p, q := Replace(f, i, x), f.par[i].value, f.par[x].value;
    var k := PrevSibling(a, f, i, x, v);
    InPreUp(f, 0, i);
    InPreUp(f, 0, p);
    assert p in Pre(f, p);
    ReplaceParents(f, i, x);
    if p != 0 {
      InPreUp(f, v, q);
      ReplaceStays(f, i, x, p);
      ReplaceStays(f, i, x, v);
      ParentNotBelow(g, v);
      assert Removes(b, g, pool, ink, q, v);
      GoesOn(b, g, pool, ink, q, v, p);
      TreeInRange(g, p);
      HollowAgrees(a, g, pool, b, g, pool, ink, v, p);
    }
  }

  /** The space tests around the replacement are those on the document before. */
  lemma SpaceBesideIs(a: Arena, f: Forest, pool: Bytes, b: Arena, c: Arena, h: Forest, pool': Bytes, ink: Ink, i: nat,
      x: nat, v: nat)
    requires Starts(a, f, i, x, v) && Climbed(a, f, pool, b, h, ink, i, x, v)
    requires 0 < |a| && f.par[0] == None && i in Pre(f, 0) && i != 0 && Extends(a, pool, c, pool')
    ensures x < |h.kids| && (SpaceBeside(c, h, pool', x) <==> SpaceKept(a, f, pool, ink, i, x))
  {
    ParentGoes(a, f, pool, b, h, ink, i, x, v);
    var r := TreeAfter(a, f, pool, ink, i, x);
    var before, after := AroundReplacement(a, f, pool, b, h, ink, i, x, v, r);
    SpaceToldBefore(a, f, pool, c, h, pool', i, x, v, r, before, after);
  }

  lemma SpaceToldBefore(a: Arena, f: Forest, pool: Bytes, c: Arena, h: Forest, pool': Bytes, i: nat, x: nat, v: nat,
      r: nat, before: Ids, after: Ids)
    requires Linked(a, f) && Tidy(h) && Extends(a, pool, c, pool') && r < |a| && v < |a| && i < |a| && x < |a|
    requires r < |h.kids| && h.par[r] == None && Pre(f, r) == before + Pre(f, v) + Pre(f, i) + after
    requires Pre(h, r) == before + Pre(f, x) + after
    ensures x < |h.kids|
    ensures SpaceBeside(c, h, pool', x) <==> SpaceAround(a, pool, Pre(f, r), v, i, |Pre(f, i)|, Pre(f, x)[1..])
  {
    var below := Pre(f, x)[1..];
    assert Pre(f, x) == [x] + below;
    BesideIs(c, h, pool', x, r, before, below, after);
    PreNoDup(f, r);
    AroundIs(a, pool, Pre(f, r), v, i, before, Pre(f, v), Pre(f, i), below, after);
    StretchesInRange(f, r, x, before, Pre(f, v) + Pre(f, i), below, after) by {
      FourParts(before, Pre(f, v), Pre(f, i), after);
    }
    SpacesSame(a, pool, c, pool', before);
    SpacesSame(a, pool, c, pool', below + after);
  }

  lemma BesideIs(c: Arena, h: Forest, pool: Bytes, x: nat, r: nat, before: Ids, below: Ids, after: Ids)
    requires Tidy(h) && r < |h.kids| && h.par[r] == None && Pre(h, r) == before + ([x] + below) + after
    ensures x < |h.kids|
    ensures SpaceBeside(c, h, pool, x) <==> SpaceLast(c, pool, before) || SpaceFirst(c, pool, below + after)
  {
    OrderAfter(h, r, x, before, below, after);
  }

  lemma AroundIs(a: Arena, pool: Bytes, order: Ids, v: nat, i: nat, before: Ids, s: Ids, t: Ids, below: Ids, after: Ids)
    requires order == before + s + t + after && NoDup(order) && s != [] && s[0] == v && t != [] && t[0] == i
    ensures SpaceAround(a, pool, order, v, i, |t|, below)
            <==> SpaceLast(a, pool, before) || SpaceFirst(a, pool, below + after)
  {
    assert order[|before|] == v && order[|before + s|] == i;
    assert IndexOf(order, v) == |before| && IndexOf(order, i) == |before + s|;
    assert order[..|before|] == before && order[|before + s| + |t|..] == after;
  }

  lemma StretchesInRange(f: Forest, r: nat, x: nat, before: Ids, s: Ids, below: Ids, after: Ids)
    requires Tidy(f) && r < |f.kids| && x < |f.kids| && Pre(f, r) == before + s + after && Pre(f, x) == [x] + below
    ensures forall k :: 0 <= k < |before| ==> before[k] < |f.kids|
    ensures var rest := below + after; forall k :: 0 <= k < |rest| ==> rest[k] < |f.kids|
  {
    TreeInRange(f, r);
    TreeInRange(f, x);
    PartsInRange(|f.kids|, Pre(f, r), before, s, after);
    PartsInRange(|f.kids|, Pre(f, x), [x], below, []);
  }

  lemma PartsInRange(n: nat, order: Ids, s: Ids, t: Ids, u: Ids)
    requires order == s + t + u && forall k :: 0 <= k < |order| ==> order[k] < n
    ensures forall k :: 0 <= k < |s| ==> s[k] < n
    ensures forall k :: 0 <= k < |t| ==> t[k] < n
    ensures forall k :: 0 <= k < |u| ==> u[k] < n
  {
    assert forall k :: 0 <= k < |s| ==> s[k] == order[k];
    assert forall k :: 0 <= k < |t| ==> t[k] == order[|s| + k];
    assert forall k :: 0 <= k < |u| ==> u[k] == order[|s| + |t| + k];
  }

  lemma OrderAfter(h: Forest, r: nat, x: nat, before: Ids, below: Ids, after: Ids)
    requires Tidy(h) && r < |h.kids| && h.par[r] == None && Pre(h, r) == before + ([x] + below) + after
    ensures x < |h.kids| && Preceding(h, x) == before && Following(h, x) == below + after
  {
    assert Pre(h, r)[|before|] == x;
    TopIs(h, r, x);
    assert before + ([x] + below) + after == before + [x] + (below + after);
    PlaceIs(h, x, before, below + after);
  }

  // ---- climbing still ends ----

  /** Every node of the document in `f` hangs below another of them, or has no parent any more. */
  ghost predicate Upright(f: Forest, h: Forest)
    requires Tidy(f) && 0 < |f.kids|
  {
    forall n :: n in Pre(f, 0) ==> n < |h.par| && (h.par[n] == None || (Attached(h, n) && h.par[n].value in Pre(f, 0)))
  }

  lemma {:induction false} UprightGrounded(f: Forest, h: Forest, n: nat)
    requires Tidy(f) && Tidy(h) && 0 < |f.kids| && Upright(f, h) && n in Pre(f, 0)
    ensures Grounded(h, n)
    decreases if n < |h.rank| then h.rank[n] else 0
  {
    if h.par[n].Some? {
      assert ChildOk(h, h.par[n].value, h.kids[h.par[n].value][IndexOf(h.kids[h.par[n].value], n)]);
      UprightGrounded(f, h, h.par[n].value);
    }
  }

  lemma {:induction false} GroundedStill(f: Forest, g: Forest, n: nat)
    requires Tidy(f) && Tidy(g) && AllStay(f, g) && Grounded(f, n)
    ensures Grounded(g, n)
    decreases if n < |f.rank| then f.rank[n] else 0
  {
    assert Stays(f, g, n);
    if f.par[n].Some? {
      GroundedUp(f, n);
      assert ChildOk(f, f.par[n].value, f.kids[f.par[n].value][IndexOf(f.kids[f.par[n].value], n)]);
      GroundedStill(f, g, f.par[n].value);
    }
  }

  /** Replacing and pruning leave the document's nodes upright. */
  lemma UprightAfter(a: Arena, f: Forest, h: Forest, i: nat, x: nat)
    requires Linked(a, f) && 0 < |a| && f.par[0] == None && i in Pre(f, 0) && x in Pre(f, 0) && i < |a| && x < |a|
    requires Attached(f, i) && Attached(f, x) && i !in Pre(f, x) && LooseStay(Replace(f, i, x), h)
    requires forall n :: 0 <= n < |a| ==> Stays(Replace(f, i, x), h, n) || h.par[n] == None
    ensures Upright(f, h)
  {
    var g := Replace(f, i, x);
    ReplaceParents(f, i, x);
    InPreUp(f, 0, i);
    forall n | n in Pre(f, 0)
        ensures n < |h.par| && (h.par[n] == None || (Attached(h, n) && h.par[n].value in Pre(f, 0))) {
      InPreUp(f, 0, n);
      if n != i && n != x { ReplaceStays(f, i, x, n); }
      assert Stays(g, h, n) || h.par[n] == None;
    }
  }
}
