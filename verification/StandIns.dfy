/**
 The spaces that pruning leaves: where a block between two inline neighbours goes, and the text has no
 space there, a text node with one space takes its place, and nothing else is ever put in.
 */
module StandIns {
  import opened Wrappers
  import opened LittleEndian
  import opened NodeLayout
  import opened Forest
  import opened ForestEdits
  import opened Links
  import opened RevWalk
  import opened Spaces
  import opened Tags
  import opened VisibleText
  import opened Climbing

  // ---- whether a block that goes leaves a space ----

  /** `v` is a block between two inline siblings. */
  ghost predicate Flanked(a: Arena, f: Forest, v: nat)
    requires Tidy(f) && |a| == |f.kids| && Attached(f, v)
  {
    var ks := f.kids[f.par[v].value];
    var k := IndexOf(ks, v);
    && IsBlock(a[v].tag) && 0 < k && k + 1 < |ks| && ks[k - 1] < |a| && ks[k + 1] < |a|
    && IsInline(a[ks[k - 1]].tag) && IsInline(a[ks[k + 1]].tag)
  }

  /** The sibling after `v`. */
  ghost function NextOf(f: Forest, v: nat): nat
    requires Attached(f, v) && IndexOf(f.kids[f.par[v].value], v) + 1 < |f.kids[f.par[v].value]|
  {
    f.kids[f.par[v].value][IndexOf(f.kids[f.par[v].value], v) + 1]
  }

  /** And without `v` the text has no space where it stood. */
  ghost predicate SpaceDue(a: Arena, f: Forest, pool: Bytes, v: nat)
    requires Tidy(f) && |a| == |f.kids| && Attached(f, v)
  {
    DetachTidy(f, v);
    Flanked(a, f, v) && !SpaceBeside(a, Detach(f, v), pool, NextOf(f, v))
  }

  // ---- where the spaces are ----

  function Put(ks: Ids, k: nat, n: nat): Ids
    requires k < |ks|
  {
    ks[k := n]
  }

  /** The new node `n` is a space, and stands exactly where `v` stood. */
  ghost predicate StandsFor(a: Arena, f: Forest, b: Arena, h: Forest, pool: Bytes, v: nat, n: nat)
    requires Attached(f, v)
  {
    var p := f.par[v].value;
    && |a| <= n < |b| && IsSpaceNode(b, pool, n) && n < |h.par| && h.par[n] == Some(p) && p < |h.kids|
    && h.kids[p] == Put(f.kids[p], IndexOf(f.kids[p], v), n)
  }

  /** The list that held `v` is as before, but for a space in its place if one is due. */
  ghost predicate ListAfter(a: Arena, f: Forest, pool: Bytes, b: Arena, h: Forest, pool': Bytes, v: nat)
    requires Tidy(f) && |a| == |f.kids| && Attached(f, v)
  {
    if SpaceDue(a, f, pool, v) then exists n :: StandsFor(a, f, b, h, pool', v, n) else ListWithout(f, h, v)
  }

  ghost predicate Gone(f: Forest, h: Forest, v: nat) {
    v < |f.par| && v < |h.par| && Attached(f, v) && h.par[v] == None
  }

  /** `n` was put in for a block that went and left a space due. */
  ghost predicate PutForOne(a: Arena, f: Forest, pool: Bytes, b: Arena, h: Forest, pool': Bytes, n: nat)
    requires Tidy(f) && |a| == |f.kids|
  {
    exists v :: Gone(f, h, v) && SpaceDue(a, f, pool, v) && StandsFor(a, f, b, h, pool', v, n)
  }

  /** Every block that went has left a space if one was due, and nothing else was put in. */
  ghost predicate SpacesPut(a: Arena, f: Forest, pool: Bytes, b: Arena, h: Forest, pool': Bytes)
    requires Tidy(f) && |a| == |f.kids|
  {
    && (forall v :: Gone(f, h, v) ==> ListAfter(a, f, pool, b, h, pool', v))
    && (forall n :: |a| <= n < |b| ==> PutForOne(a, f, pool, b, h, pool', n))
  }

  /** Where a block between two inline siblings went and its parent is still in the tree at `root`, there is a space. */
  ghost predicate SpacedOut(a: Arena, f: Forest, b: Arena, h: Forest, pool: Bytes, root: nat)
    requires Tidy(f) && Tidy(h) && |a| == |f.kids| && root < |h.kids|
  {
    forall v: nat :: Gone(f, h, v) && f.par[v].value in Pre(h, root) && Flanked(a, f, v) ==>
      NextOf(f, v) < |h.kids| && SpaceBeside(b, h, pool, NextOf(f, v))
  }

  // ---- the tests, before and after ----

  /** The order around a node decides the space tests at it. */
  lemma BesideAgrees(a: Arena, d: Forest, pool: Bytes, b: Arena, e: Forest, pool': Bytes, root: nat, n: nat)
    requires Tidy(d) && Tidy(e) && root < |d.kids| <= |a| && root < |e.kids| && Extends(a, pool, b, pool')
    requires d.par[root] == None && e.par[root] == None && Pre(e, root) == Pre(d, root) && n in Pre(d, root)
    ensures n < |d.kids| && n < |e.kids|
    ensures SpaceBeside(b, e, pool', n) <==> SpaceBeside(a, d, pool, n)
  {
    TopIs(d, root, n);
    TopIs(e, root, n);
    TreeInRange(d, root);
    SpacesSame(a, pool, b, pool', Preceding(d, n));
    SpacesSame(a, pool, b, pool', Following(d, n));
  }

  lemma SiblingsOf(f: Forest, v: nat, root: nat)
    requires Tidy(f) && root < |f.kids| && f.par[root] == None && Attached(f, v) && v in Pre(f, root)
    requires IndexOf(f.kids[f.par[v].value], v) + 1 < |f.kids[f.par[v].value]|
    ensures v < |f.kids| && v != root && f.par[v].value in Pre(f, root) && Tidy(Detach(f, v))
    ensures NextOf(f, v) in Pre(Detach(f, v), root)
  {
    InPreUp(f, root, v);
    DetachKeepsRest(f, v, root);
    var p := f.par[v].value;
    var ks, k := f.kids[p], IndexOf(f.kids[p], v);
    assert NoDup(ks) && ks[k + 1] != ks[k];
    SiblingOutside(f, root, p, k, k + 1);
  }

  /** Two documents that differ only below `v` have the same space due when `v` goes. */
  lemma DueAgrees(a: Arena, f: Forest, pool: Bytes, b: Arena, g: Forest, pool': Bytes, root: nat, v: nat)
    requires Tidy(f) && Tidy(g) && |a| == |f.kids| <= |b| == |g.kids| && Extends(a, pool, b, pool')
    requires root < |a| && f.par[root] == None && g.par[root] == None && v in Pre(f, root)
    requires Attached(f, v) && Attached(g, v) && f.par[v] == g.par[v]
    requires forall m :: m in Pre(f, root) && m !in Pre(f, v) ==>
             m < |f.kids| && m < |g.kids| && g.kids[m] == f.kids[m]
    ensures Flanked(b, g, v) <==> Flanked(a, f, v)
    ensures SpaceDue(b, g, pool', v) <==> SpaceDue(a, f, pool, v)
  {
    var p := f.par[v].value;
    InPreUp(f, root, v);
    ParentNotBelow(f, v);
    assert g.kids[p] == f.kids[p];
    SameFlanks(a, f, b, g, v);
    if Flanked(a, f, v) {
      CutAgrees(f, g, v, root);
      SiblingsOf(f, v, root);
      BesideAgrees(a, Detach(f, v), pool, b, Detach(g, v), pool', root, NextOf(f, v));
    }
  }

  lemma SameFlanks(a: Arena, f: Forest, b: Arena, g: Forest, v: nat)
    requires Tidy(f) && Tidy(g) && |a| == |f.kids| <= |b| == |g.kids| && SamePayloads(a, b)
    requires Attached(f, v) && Attached(g, v) && f.par[v] == g.par[v]
             && g.kids[f.par[v].value] == f.kids[f.par[v].value]
    ensures Flanked(b, g, v) <==> Flanked(a, f, v)
  {
    var ks := f.kids[f.par[v].value];
    var k := IndexOf(ks, v);
    assert Kin(f, f.par[v].value, ks);
    assert forall j :: 0 <= j < |ks| ==> ChildOk(f, f.par[v].value, ks[j]);
    assert Payload(b[v]) == Payload(a[v]);
    if k > 0 { assert Payload(b[ks[k - 1]]) == Payload(a[ks[k - 1]]); }
    if k + 1 < |ks| { assert Payload(b[ks[k + 1]]) == Payload(a[ks[k + 1]]); }
  }

  // ---- one node taken out ----

  /** What taking `v` out, and putting a space in if one is due, does to `v`'s list. */
  ghost predicate TakenOut(a: Arena, f: Forest, pool: Bytes, b: Arena, g: Forest, pool': Bytes, v: nat)
    requires Tidy(f) && |a| == |f.kids| && Attached(f, v)
  {
    && ListAfter(a, f, pool, b, g, pool', v) && |b| == |a| + (if SpaceDue(a, f, pool, v) then 1 else 0)
    && (SpaceDue(a, f, pool, v) ==> StandsFor(a, f, b, g, pool', v, |a|))
  }

  lemma StepPuts(a: Arena, f: Forest, pool: Bytes, b: Arena, g: Forest, pool': Bytes, v: nat, r: Outcome,
      prev: Option<nat>)
    requires Linked(a, f) && Linked(b, g) && Attached(f, v) && StepsTo(f, g, v, r, prev) && prev == a[v].prev
    requires r.Added? <==> SpaceDue(a, f, pool, v)
    requires |b| == |a| + (if r.Added? then 1 else 0) && (r.Added? ==> IsSpaceNode(b, pool', |a|))
    ensures TakenOut(a, f, pool, b, g, pool', v)
  {
    var d, p := Detach(f, v), f.par[v].value;
    var ks, k := f.kids[p], IndexOf(f.kids[p], v);
    Neighbours(a, f, v);
    assert Kin(f, p, ks) && NoDup(ks);
    if r.Added? {
      CutThenPut(ks, k, |a|);
      assert ChildOk(f, p, ks[k - 1]);
      assert StandsFor(a, f, b, g, pool', v, |a|);
    }
  }

  /** Cutting one entry and inserting another after the one before it is exchanging the two. */
  lemma CutThenPut(ks: Ids, k: nat, n: nat)
    requires 0 < k < |ks| && NoDup(ks)
    ensures ks[k - 1] in Cut(ks, k) && IndexOf(Cut(ks, k), ks[k - 1]) == k - 1
    ensures Insert(Cut(ks, k), k, n) == Put(ks, k, n)
  {
    var cut := Cut(ks, k);
    assert cut[k - 1] == ks[k - 1];
    assert NoDup(cut) by {
      forall i, j | 0 <= i < j < |cut| ensures cut[i] != cut[j] {
        assert cut[i] == ks[if i < k then i else i + 1] && cut[j] == ks[if j < k then j else j + 1];
      }
    }
  }

  // ---- the whole climb ----

  lemma NothingPut(a: Arena, f: Forest, pool: Bytes, root: nat)
    requires Tidy(f) && |a| == |f.kids| && root < |a|
    ensures SpacesPut(a, f, pool, a, f, pool) && SpacedOut(a, f, a, f, pool, root)
  {
  }

  /** The list a node was taken out of stays as it was left. */
  lemma IndexPut(a: Arena, f: Forest, pool: Bytes, b: Arena, g: Forest, pool': Bytes, c: Arena, h: Forest,
      pool'': Bytes, root: nat, index: nat)
    requires Linked(a, f) && Linked(b, g) && Linked(c, h) && root < |a| && index < |a| && Attached(f, index)
    requires TakenOut(a, f, pool, b, g, pool', index) && PlacesKept(f, g, root, index)
    requires Extends(b, pool', c, pool'') && |b| <= |c| && OthersStay(g, h, f.par[index].value)
    requires f.par[index].value < |h.kids| && h.kids[f.par[index].value] == g.kids[f.par[index].value]
    ensures ListAfter(a, f, pool, c, h, pool'', index)
    ensures |a| < |b| ==> SpaceDue(a, f, pool, index) && StandsFor(a, f, c, h, pool'', index, |a|)
  {
    var p := f.par[index].value;
    if SpaceDue(a, f, pool, index) {
      var n := |a|;
      assert StandsFor(a, f, b, g, pool', index, n);
      SpaceNodeKept(b, pool', c, pool'', n);
      assert g.kids[p][IndexOf(f.kids[p], index)] == n;
      assert Attached(g, n) && Stays(g, h, n);
      assert StandsFor(a, f, c, h, pool'', index, n);
    }
  }

  /** A node that goes after the first step stood above it, where nothing had changed. */
  lemma HigherSame(a: Arena, f: Forest, pool: Bytes, b: Arena, g: Forest, pool': Bytes, h: Forest, ink: Ink, root: nat,
      index: nat, v: nat)
    requires Linked(a, f) && Linked(b, g) && root < |a| && f.par[root] == None && index < |a| && index in Pre(f, root)
    requires Stepped(a, f, pool, b, g, pool', ink, root, index) && ListsKept(f, g, index)
    requires OthersStay(g, h, f.par[index].value) && Gone(f, h, v) && v != index
    ensures Attached(g, v) && g.par[v] == f.par[v] && f.par[v].value < |f.kids| && f.par[v] != f.par[index]
    ensures g.kids[f.par[v].value] == f.kids[f.par[v].value]
    ensures SpaceDue(b, g, pool', v) <==> SpaceDue(a, f, pool, v)
    ensures Flanked(b, g, v) <==> Flanked(a, f, v)
  {
    var p := f.par[index].value;
    assert Stays(f, g, v) && !Stays(g, h, v);
    assert p in Pre(g, v) && p in Pre(f, v);
    InPreUp(f, root, index);
    PreNested(f, v, root, p);
    if root in Pre(f, v) { InPreUp(f, v, root); }
    ParentNotBelow(f, v);
    TreeInRange(f, root);
    DueAgrees(a, f, pool, b, g, pool', root, v);
  }

  lemma HigherPut(a: Arena, f: Forest, pool: Bytes, b: Arena, g: Forest, pool': Bytes, c: Arena, h: Forest,
      pool'': Bytes, ink: Ink, root: nat, index: nat, v: nat)
    requires Linked(a, f) && Linked(b, g) && root < |a| && f.par[root] == None && index < |a| && index in Pre(f, root)
    requires Stepped(a, f, pool, b, g, pool', ink, root, index) && ListsKept(f, g, index)
    requires OthersStay(g, h, f.par[index].value) && Gone(f, h, v) && v != index
    requires Attached(g, v) && ListAfter(b, g, pool', c, h, pool'', v)
    ensures ListAfter(a, f, pool, c, h, pool'', v)
  {
    HigherSame(a, f, pool, b, g, pool', h, ink, root, index, v);
    if SpaceDue(b, g, pool', v) {
      var n :| StandsFor(b, g, c, h, pool'', v, n);
      assert StandsFor(a, f, c, h, pool'', v, n);
    }
  }

  /** What went after the first step had its place before it. */
  lemma GoneBefore(f: Forest, g: Forest, h: Forest, root: nat, index: nat, v: nat)
    requires Tidy(f) && Tidy(g) && root < |f.kids| <= |g.kids| && index < |f.kids| && Attached(f, index)
    requires PlacesKept(f, g, root, index) && OthersStay(g, h, f.par[index].value) && Gone(g, h, v)
    ensures Gone(f, h, v) && v != index
  {
    assert !Stays(g, h, v);
  }

  /** `index` taken out, a space put in if one was due, and then the climb from its parent. */
  ghost predicate Onward(a: Arena, f: Forest, pool: Bytes, b: Arena, g: Forest, pool': Bytes, c: Arena, h: Forest,
      pool'': Bytes, ink: Ink, root: nat, index: nat)
  {
    && Linked(a, f) && Linked(b, g) && Linked(c, h) && root < |a| && f.par[root] == None && index < |a|
    && index in Pre(f, root) && Stepped(a, f, pool, b, g, pool', ink, root, index) && ListsKept(f, g, index)
    && TakenOut(a, f, pool, b, g, pool', index) && f.par[index].value < |b|
    && Extends(b, pool', c, pool'') && |b| <= |c| && LooseStay(g, h) && OthersStay(g, h, f.par[index].value)
    && KidsAfter(b, g, h)
  }

  /** What stands for `v` after the step stands for it before. */
  lemma StandsBefore(a: Arena, f: Forest, b: Arena, g: Forest, c: Arena, h: Forest, pool: Bytes, v: nat, n: nat)
    requires Attached(f, v) && Attached(g, v) && g.par[v] == f.par[v] && f.par[v].value < |f.kids| && |a| <= |b|
    requires g.kids[f.par[v].value] == f.kids[f.par[v].value] && StandsFor(b, g, c, h, pool, v, n)
    ensures StandsFor(a, f, c, h, pool, v, n)
  {
  }

  lemma PutIs(a: Arena, f: Forest, pool: Bytes, b: Arena, h: Forest, pool': Bytes, v: nat, n: nat)
    requires Tidy(f) && |a| == |f.kids| && Gone(f, h, v) && SpaceDue(a, f, pool, v)
             && StandsFor(a, f, b, h, pool', v, n)
    ensures PutForOne(a, f, pool, b, h, pool', n)
  {
  }

  lemma LaterPut(a: Arena, f: Forest, pool: Bytes, b: Arena, g: Forest, pool': Bytes, c: Arena, h: Forest,
      pool'': Bytes, ink: Ink, root: nat, index: nat, n: nat)
    requires Onward(a, f, pool, b, g, pool', c, h, pool'', ink, root, index)
    requires PutForOne(b, g, pool', c, h, pool'', n)
    ensures PutForOne(a, f, pool, c, h, pool'', n)
  {
    var v :| Gone(g, h, v) && SpaceDue(b, g, pool', v) && StandsFor(b, g, c, h, pool'', v, n);
    GoneBefore(f, g, h, root, index, v);
    HigherSame(a, f, pool, b, g, pool', h, ink, root, index, v);
    StandsBefore(a, f, b, g, c, h, pool'', v, n);
    PutIs(a, f, pool, c, h, pool'', v, n);
  }

  /** The spaces of the step and of the rest of the climb, told from the document before. */
  lemma PutsUp(a: Arena, f: Forest, pool: Bytes, b: Arena, g: Forest, pool': Bytes, c: Arena, h: Forest,
      pool'': Bytes, ink: Ink, root: nat, index: nat)
    requires Onward(a, f, pool, b, g, pool', c, h, pool'', ink, root, index)
    requires SpacesPut(b, g, pool', c, h, pool'')
    ensures SpacesPut(a, f, pool, c, h, pool'')
  {
    var p := f.par[index].value;
    assert ChildOk(f, p, f.kids[p][IndexOf(f.kids[p], index)]);
    ParentKeepsList(b, g, h, p);
    IndexPut(a, f, pool, b, g, pool', c, h, pool'', root, index);
    forall v | Gone(f, h, v) ensures ListAfter(a, f, pool, c, h, pool'', v) {
      if v != index {
        HigherSame(a, f, pool, b, g, pool', h, ink, root, index, v);
        assert ListAfter(b, g, pool', c, h, pool'', v);
        HigherPut(a, f, pool, b, g, pool', c, h, pool'', ink, root, index, v);
      }
    }
    forall n | |a| <= n < |c| ensures PutForOne(a, f, pool, c, h, pool'', n) {
      if n >= |b| {
        LaterPut(a, f, pool, b, g, pool', c, h, pool'', ink, root, index, n);
      } else {
        assert n == |a|;
        PutIs(a, f, pool, c, h, pool'', index, |a|);
      }
    }
  }

  // ---- a space where the block was ----

  /** The new leaf is the last text before the sibling it was put in front of. */
  lemma LeafBeside(b: Arena, pool: Bytes, d: Forest, p: nat, k: nat, root: nat, next: nat)
    requires Tidy(d) && p < |d.kids| && k < |d.kids[p]| && d.kids[p][k] == next && root < |d.kids|
             && d.par[root] == None
    requires p in Pre(d, root) && IsSpaceNode(b, pool, |d.kids|)
    ensures Tidy(AddLeaf(d, p, k)) && next < |AddLeaf(d, p, k).kids| && SpaceBeside(b, AddLeaf(d, p, k), pool, next)
  {
    var a0, s, t := AddLeafDocument(d, p, k, root);
    var g, n := AddLeaf(d, p, k), |d.kids|;
    var right := d.kids[p][k..];
    assert right[0] == next && ChildOk(d, p, right[0]);
    FirstOfAll(d, p, right);
    assert t[0] == next;
    assert Pre(g, root) == (s + [n]) + [next] + t[1..];
    assert next in Pre(g, root) by { assert Pre(g, root)[|s| + 1] == next; }
    TopIs(g, root, next);
    PlaceIs(g, next, s + [n], t[1..]);
    LastIsSpace(b, pool, s, n);
  }

  lemma FirstOfAll(f: Forest, p: nat, cs: Ids)
    requires Tidy(f) && p < |f.kids| && Kin(f, p, cs) && cs != []
    ensures PreAll(f, p, cs) != [] && PreAll(f, p, cs)[0] == cs[0]
  {
    assert ChildOk(f, p, cs[0]);
    assert Pre(f, cs[0])[0] == cs[0];
  }

  lemma LastIsSpace(b: Arena, pool: Bytes, s: Ids, n: nat)
    requires IsSpaceNode(b, pool, n)
    ensures SpaceLast(b, pool, s + [n])
  {
    assert (s + [n])[|s + [n]| - 1] == n;
  }

  /** After one step there is a space where the block was, be it new or old. */
  lemma StepBeside(a: Arena, f: Forest, pool: Bytes, b: Arena, g: Forest, pool': Bytes, root: nat, v: nat, r: Outcome,
      prev: Option<nat>)
    requires Linked(a, f) && Linked(b, g) && root < |a| && f.par[root] == None && v in Pre(f, root) && v < |a|
    requires Attached(f, v) && StepsTo(f, g, v, r, prev) && prev == a[v].prev && Extends(a, pool, b, pool')
    requires (r.Added? <==> SpaceDue(a, f, pool, v)) && (r.Added? ==> IsSpaceNode(b, pool', |a|))
    requires Flanked(a, f, v)
    ensures NextOf(f, v) < |g.kids| && SpaceBeside(b, g, pool', NextOf(f, v))
  {
    var d, p := Detach(f, v), f.par[v].value;
    var ks, k := f.kids[p], IndexOf(f.kids[p], v);
    SiblingsOf(f, v, root);
    Neighbours(a, f, v);
    DetachKeepsRest(f, v, root);
    if r.Added? {
      assert Kin(f, p, ks) && NoDup(ks) && ChildOk(f, p, ks[k - 1]);
      CutThenPut(ks, k, |a|);
      assert d.kids[p][k] == ks[k + 1];
      LeafBeside(b, pool', d, p, k, root, ks[k + 1]);
    } else {
      BesideAgrees(a, d, pool, b, d, pool', root, NextOf(f, v));
    }
  }

  /** The climb that goes on takes the parent as well, unless it stops there at once. */
  lemma SpacedUp(a: Arena, f: Forest, pool: Bytes, b: Arena, g: Forest, pool': Bytes, c: Arena, h: Forest,
      pool'': Bytes, ink: Ink, root: nat, index: nat)
    requires Onward(a, f, pool, b, g, pool', c, h, pool'', ink, root, index)
    requires SpacedOut(b, g, c, h, pool'', root)
    requires f.par[index].value in Pre(h, root) ==> c == b && h == g && pool'' == pool'
    requires Flanked(a, f, index) ==>
             NextOf(f, index) < |g.kids| && SpaceBeside(b, g, pool', NextOf(f, index))
    ensures SpacedOut(a, f, c, h, pool'', root)
  {
    forall v: nat | Gone(f, h, v) && f.par[v].value in Pre(h, root) && Flanked(a, f, v)
        ensures NextOf(f, v) < |h.kids| && SpaceBeside(c, h, pool'', NextOf(f, v)) {
      if v != index {
        HigherSame(a, f, pool, b, g, pool', h, ink, root, index, v);
        assert Gone(g, h, v);
      }
    }
  }

  /** The condition as the program tests it, on the records right after the removal. */
  lemma DueIs(a: Arena, f: Forest, pool: Bytes, b: Arena, root: nat, v: nat)
    requires Linked(a, f) && root < |a| && f.par[root] == None && v in Pre(f, root) && v < |a| && Attached(f, v)
    requires |b| == |a| && Extends(a, pool, b, pool) && LinkOk(a[v].prev, |a|) && LinkOk(a[v].next, |a|)
    ensures Tidy(Detach(f, v))
    ensures SpaceDue(a, f, pool, v) <==>
            IsBlock(a[v].tag) && Asks(b, a[v].prev, a[v].next) && !SpaceBeside(b, Detach(f, v), pool, a[v].next.value)
  {
    var ks, k := f.kids[f.par[v].value], IndexOf(f.kids[f.par[v].value], v);
    DetachTidy(f, v);
    Neighbours(a, f, v);
    assert Kin(f, f.par[v].value, ks);
    if k > 0 { assert ChildOk(f, f.par[v].value, ks[k - 1]) && Payload(b[ks[k - 1]]) == Payload(a[ks[k - 1]]); }
    if k + 1 < |ks| {
      assert ChildOk(f, f.par[v].value, ks[k + 1]) && Payload(b[ks[k + 1]]) == Payload(a[ks[k + 1]]);
      SiblingsOf(f, v, root);
      DetachKeepsRest(f, v, root);
      BesideAgrees(a, Detach(f, v), pool, b, Detach(f, v), pool, root, ks[k + 1]);
    }
  }

  // ---- the cursor ----

  /** The sibling before `v`, else the one after it, else its parent. */
  ghost predicate Beside(f: Forest, v: nat, c: nat)
    requires Attached(f, v)
  {
    var p := f.par[v].value;
    var ks, k := f.kids[p], IndexOf(f.kids[p], v);
    c == if k > 0 then ks[k - 1] else if k + 1 < |ks| then ks[k + 1] else p
  }

  /** The cursor is beside the last node to go, the one below the node that was kept. */
  ghost predicate CursorBeside(f: Forest, h: Forest, kept: nat, c: nat) {
    exists v: nat :: Gone(f, h, v) && f.par[v] == Some(kept) && Beside(f, v, c)
  }

  lemma CursorHere(a: Arena, f: Forest, h: Forest, index: nat, c: nat)
    requires Linked(a, f) && Gone(f, h, index) && f.par[index].value < |a| && index < |a|
    requires Some(c) == if a[index].prev.Some? then a[index].prev
                        else if a[index].next.Some? then a[index].next else f.par[index]
    ensures CursorBeside(f, h, f.par[index].value, c)
  {
    Neighbours(a, f, index);
    assert Beside(f, index, c);
  }

  lemma CursorUp(a: Arena, f: Forest, pool: Bytes, b: Arena, g: Forest, pool': Bytes, h: Forest, ink: Ink, root: nat,
      index: nat, kept: nat, c: nat)
    requires Linked(a, f) && Linked(b, g) && root < |a| && f.par[root] == None && index < |a| && index in Pre(f, root)
    requires Stepped(a, f, pool, b, g, pool', ink, root, index) && ListsKept(f, g, index)
    requires OthersStay(g, h, f.par[index].value) && CursorBeside(g, h, kept, c)
    ensures CursorBeside(f, h, kept, c)
  {
    var v: nat :| Gone(g, h, v) && g.par[v] == Some(kept) && Beside(g, v, c);
    GoneBefore(f, g, h, root, index, v);
    HigherSame(a, f, pool, b, g, pool', h, ink, root, index, v);
    BesideSame(f, g, h, kept, v, c);
  }

  lemma BesideSame(f: Forest, g: Forest, h: Forest, kept: nat, v: nat, c: nat)
    requires Gone(f, h, v) && Attached(g, v) && g.par[v] == f.par[v] == Some(kept) && kept < |f.kids|
    requires g.kids[kept] == f.kids[kept] && Beside(g, v, c)
    ensures CursorBeside(f, h, kept, c)
  {
    assert Beside(f, v, c);
  }

  /** A parent that is still in the tree was kept. */
  lemma ClimbStopped(g: Forest, h: Forest, root: nat, p: nat, kept: nat)
    requires Tidy(g) && Tidy(h) && root < |h.kids| && p < |h.par| && p < |g.par|
    requires kept != p ==> h.par[p] == None && p != root
    ensures p in Pre(h, root) ==> kept == p
  {
    if p in Pre(h, root) && kept != p { InPreUp(h, root, p); }
  }
}
