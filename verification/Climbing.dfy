/**
 Pruning told as changes of value: which nodes a climb takes, what each step leaves of the lists, the
 places and the text, and what the whole climb comes to, from the document before it.
 */
module Climbing {
  import opened Wrappers
  import opened LittleEndian
  import opened NodeLayout
  import opened Forest
  import opened ForestEdits
  import opened Links
  import opened TextBlocks
  import opened Dom
  import opened RevWalk
  import opened Spaces
  import opened Tags
  import opened VisibleText

  // ---- where nodes are, before and after ----

  /** How many ancestors `i` has below `root`, `root` included. */
  ghost function Depth(f: Forest, root: nat, i: nat): nat
    requires Tidy(f) && root < |f.kids| && i in Pre(f, root)
    decreases if i < |f.rank| then f.rank[i] else 0
  {
    InPreUp(f, root, i);
    if i == root then 0
    else
      var p := f.par[i].value;
      assert ChildOk(f, p, f.kids[p][IndexOf(f.kids[p], i)]);
      1 + Depth(f, root, p)
  }

  lemma {:induction false} DepthSame(f: Forest, g: Forest, root: nat, i: nat)
    requires Tidy(f) && Tidy(g) && root < |f.kids| && root < |g.kids| && i in Pre(f, root) && i in Pre(g, root)
    requires forall n :: 0 <= n < |f.par| && n in Pre(g, root) ==> n < |g.par| && g.par[n] == f.par[n]
    ensures Depth(g, root, i) == Depth(f, root, i)
    decreases if i < |f.rank| then f.rank[i] else 0
  {
    InPreUp(f, root, i);
    InPreUp(g, root, i);
    if i != root {
      var p := f.par[i].value;
      assert ChildOk(f, p, f.kids[p][IndexOf(f.kids[p], i)]);
      DepthSame(f, g, root, p);
    }
  }

  /** `n` kept its place: still listed below the same parent. */
  ghost predicate Stays(f: Forest, g: Forest, n: nat) {
    Attached(f, n) ==> Attached(g, n) && g.par[n] == f.par[n]
  }

  lemma DetachStays(f: Forest, c: nat, n: nat)
    requires Tidy(f) && Attached(f, c) && n != c
    ensures Stays(f, Detach(f, c), n)
  {
    var p := f.par[c].value;
    if Attached(f, n) && f.par[n] == Some(p) {
      var k, j := IndexOf(f.kids[p], c), IndexOf(f.kids[p], n);
      assert Cut(f.kids[p], k)[if j < k then j else j - 1] == n;
    }
  }

  lemma AddLeafStays(f: Forest, p: nat, k: nat, n: nat)
    requires Tidy(f) && p < |f.kids| && k <= |f.kids[p]|
    ensures Stays(f, AddLeaf(f, p, k), n)
  {
    if Attached(f, n) && f.par[n] == Some(p) {
      var j := IndexOf(f.kids[p], n);
      assert Insert(f.kids[p], k, |f.kids|)[if j < k then j else j + 1] == n;
    }
  }

  /** Only what was listed before is listed after. */
  lemma DetachAttached(f: Forest, c: nat, n: nat)
    requires Tidy(f) && Attached(f, c) && Attached(Detach(f, c), n)
    ensures Attached(f, n)
  {
    var p, g := f.par[c].value, Detach(f, c);
    var k, j := IndexOf(f.kids[p], c), IndexOf(g.kids[g.par[n].value], n);
    if g.par[n].value == p { assert f.kids[p][if j < k then j else j + 1] == n; }
  }

  lemma AddLeafAttached(f: Forest, p: nat, k: nat, n: nat)
    requires Tidy(f) && p < |f.kids| && k <= |f.kids[p]| && n < |f.kids| && Attached(AddLeaf(f, p, k), n)
    ensures Attached(f, n)
  {
    var g := AddLeaf(f, p, k);
    var j := IndexOf(g.kids[g.par[n].value], n);
    if g.par[n] == Some(p) { assert f.kids[p][if j < k then j else j - 1] == n; }
  }

  /** What cutting `c` out of the tree at `root` leaves where it was: all but `c`'s own tree. */
  lemma DetachKeepsRest(f: Forest, c: nat, root: nat)
    requires Tidy(f) && root < |f.kids| && c in Pre(f, root) && c != root && c < |f.kids|
    ensures Attached(f, c) && Tidy(Detach(f, c)) && c !in Pre(Detach(f, c), root) && f.par[c].value !in Pre(f, c)
    ensures forall n :: n in Pre(f, root) && n !in Pre(f, c) ==> n in Pre(Detach(f, c), root)
    ensures forall n :: n in Pre(Detach(f, c), root) ==> n in Pre(f, root)
    ensures forall n :: n in Pre(Detach(f, c), root) ==> n !in Pre(f, c)
  {
    InPreUp(f, root, c);
    var p := f.par[c].value;
    assert ChildOk(f, p, f.kids[p][IndexOf(f.kids[p], c)]);
    if p in Pre(f, c) { InPreUp(f, c, p); }
    var s, t := DetachDocument(f, c, root);
    PreNoDup(f, root);
    assert c in Pre(f, c);
    forall n | n in s + t ensures n !in Pre(f, c) {
      if n in Pre(f, c) { DupAcross(s, Pre(f, c), t, n); }
    }
  }

  lemma DupAcross(s: Ids, m: Ids, t: Ids, n: nat)
    requires n in m && n in s + t
    ensures !NoDup(s + m + t)
  {
    var all := s + m + t;
    var i := IndexOf(m, n);
    assert all[|s| + i] == n;
    if n in s {
      assert all[IndexOf(s, n)] == n;
    } else {
      assert all[|s| + |m| + IndexOf(t, n)] == n;
    }
  }

  lemma AddLeafKeepsRest(f: Forest, p: nat, k: nat, root: nat)
    requires Tidy(f) && p < |f.kids| && k <= |f.kids[p]| && root < |f.kids|
    ensures Tidy(AddLeaf(f, p, k))
    ensures forall n :: n in Pre(f, root) ==> n in Pre(AddLeaf(f, p, k), root)
    ensures forall n :: n in Pre(AddLeaf(f, p, k), root) ==> n in Pre(f, root) || n == |f.kids|
  {
    AddLeafTidy(f, p, k);
    if p in Pre(f, root) {
      var a0, s, t := AddLeafDocument(f, p, k, root);
    } else {
      AddLeafElsewhere(f, p, k, root);
    }
  }

  // ---- spaces ----

  datatype Outcome = Skipped | Added(space: nat) | Panicked

  /** Both neighbours exist and flow inline, so the program asks whether a space is already there. */
  predicate Asks(a: Arena, prev: Option<nat>, next: Option<nat>)
    requires LinkOk(prev, |a|) && LinkOk(next, |a|)
  {
    prev.Some? && next.Some? && IsInline(a[prev.value].tag) && IsInline(a[next.value].tag)
  }

  /** A space node was put right after `prev`, or nothing happened. */
  ghost predicate Spaced(a: Arena, f: Forest, pool: Bytes, b: Arena, g: Forest, pool': Bytes, ink: Ink, r: Outcome,
      prev: Option<nat>)
  {
    if r.Added? then
      && prev.Some? && Attached(f, prev.value) && f.par[prev.value].value < |f.kids| && Even(f)
      && var p := f.par[prev.value].value;
         var k := IndexOf(f.kids[p], prev.value) + 1;
         r.space == |a| == |f.kids| && |b| == |a| + 1 && pool' == pool + [32] && Quiet(b, pool', ink, |a|)
             && IsSpaceNode(b, pool', |a|)
             && g == AddLeaf(f, p, k)
    else b == a && g == f && pool' == pool
  }

  /** There is a space at the end of the text before `n` or at the start of the text from `n` on. */
  ghost predicate SpaceBeside(a: Arena, f: Forest, pool: Bytes, n: nat)
    requires Tidy(f) && n < |f.kids|
  {
    SpaceLast(a, pool, Preceding(f, n)) || SpaceFirst(a, pool, Following(f, n))
  }

  // ---- what is to be pruned ----

  /** A body or block in which the test sees no text; any other element, rules and breaks apart, without children. */
  ghost predicate Prunable(a: Arena, f: Forest, pool: Bytes, ink: Ink, i: nat)
    requires i < |a| == |f.kids| && Tidy(f)
  {
    if a[i].tag == BODY || IsBlock(a[i].tag) then InkSeen(a, pool, ink, Pre(f, i)) == [] || f.kids[i] == []
    else a[i].tag != BR && a[i].tag != HR && f.kids[i] == []
  }

  // ---- what pruning does to the child lists ----

  /** Some child `w` had in `f` has lost its place in `h`. */
  ghost predicate ChildGone(f: Forest, h: Forest, w: nat) {
    w < |f.kids| && exists c <- f.kids[w] :: c < |h.par| && h.par[c] == None
  }

  /**
   Lists that lost no child are as before, and where the child lost is no block, so that no space is
   considered, its list is short of that child only.
   */
  ghost predicate KidsAfter(a: Arena, f: Forest, h: Forest)
    requires Tidy(f) && |a| == |f.kids|
  {
    && |f.kids| <= |h.kids| && |f.par| <= |h.par|
    && (forall w :: 0 <= w < |f.kids| && !ChildGone(f, h, w) ==> h.kids[w] == f.kids[w])
    && (forall v :: 0 <= v < |f.par| && Attached(f, v) && h.par[v] == None && !IsBlock(a[v].tag) ==>
       ListWithout(f, h, v))
  }

  ghost predicate ListWithout(f: Forest, h: Forest, v: nat) {
    && Attached(f, v) && f.par[v].value < |h.kids|
    && h.kids[f.par[v].value] == Cut(f.kids[f.par[v].value], IndexOf(f.kids[f.par[v].value], v))
  }

  // ---- which nodes pruning takes ----

  /** Without its child `c` and the tree at it, `w` is to be pruned. */
  ghost predicate HollowUp(a: Arena, f: Forest, pool: Bytes, ink: Ink, w: nat, c: nat)
    requires w < |a| == |f.kids| && Tidy(f) && Attached(f, c)
  {
    DetachTidy(f, c);
    if a[w].tag == BODY || IsBlock(a[w].tag) then InkSeen(a, pool, ink, Pre(Detach(f, c), w)) == []
    else a[w].tag != BR && a[w].tag != HR && f.kids[w] == [c]
  }

  /** Once `c` is gone, its ancestors go one by one, and among them `v`. */
  ghost predicate Goes(a: Arena, f: Forest, pool: Bytes, ink: Ink, c: nat, v: nat)
    requires |a| == |f.kids| && Tidy(f)
    decreases if c < |f.rank| then f.rank[c] else 0
  {
    Attached(f, c) &&
    var w := f.par[c].value;
    assert ChildOk(f, w, f.kids[w][IndexOf(f.kids[w], c)]);
    Attached(f, w) && HollowUp(a, f, pool, ink, w, c) && (w == v || Goes(a, f, pool, ink, w, v))
  }

  /** Only nodes that hold `c` go with it. */
  lemma {:induction false} GoesAbove(a: Arena, f: Forest, pool: Bytes, ink: Ink, c: nat, v: nat)
    requires Tidy(f) && |a| == |f.kids| && v < |a| && Goes(a, f, pool, ink, c, v)
    ensures c in Pre(f, v) && c != v
    decreases if c < |f.rank| then f.rank[c] else 0
  {
    var w := f.par[c].value;
    assert ChildOk(f, w, f.kids[w][IndexOf(f.kids[w], c)]);
    assert v in Pre(f, v);
    if w != v { GoesAbove(a, f, pool, ink, w, v); }
    InPreDown(f, v, w, c);
    InPreUp(f, v, w);
  }

  /** Pruning from `index` upwards takes `v`, told from the document before. */
  ghost predicate Removes(a: Arena, f: Forest, pool: Bytes, ink: Ink, index: nat, v: nat)
    requires index < |a| == |f.kids| && Tidy(f)
  {
    Attached(f, index) && Prunable(a, f, pool, ink, index) && (v == index || Goes(a, f, pool, ink, index, v))
  }

  /** Of the nodes that had a place in `f`, those without one in `h` are the ones pruning takes. */
  ghost predicate RemovedAre(a: Arena, f: Forest, pool: Bytes, ink: Ink, h: Forest, index: nat)
    requires index < |a| == |f.kids| && Tidy(f)
  {
    |f.par| <= |h.par| && forall v :: 0 <= v < |f.par| && Attached(f, v) ==>
        (h.par[v] == None <==> Removes(a, f, pool, ink, index, v))
  }

  /** Only the list of `index`'s parent has changed, and it is empty only if `index` was all it had. */
  ghost predicate ListsKept(f: Forest, h: Forest, index: nat)
    requires Attached(f, index)
  {
    var p := f.par[index].value;
    && |f.kids| <= |h.kids| && (forall w :: 0 <= w < |f.kids| && w != p ==> h.kids[w] == f.kids[w])
    && (h.kids[p] == [] <==> f.kids[p] == [index])
  }

  lemma StepKids(f: Forest, h: Forest, index: nat, r: Outcome, prev: Option<nat>)
    requires Tidy(f) && Attached(f, index) && StepsTo(f, h, index, r, prev)
    requires r.Added? ==> prev.value < |f.par| && prev.value != index && f.par[prev.value] == f.par[index]
    ensures ListsKept(f, h, index)
  {
    var g, p := Detach(f, index), f.par[index].value;
    var k := IndexOf(f.kids[p], index);
    assert g.kids[p] == Cut(f.kids[p], k);
    if |f.kids[p]| == 1 { assert f.kids[p] == [index]; }
    if r.Added? {
      assert h.kids[p][SpaceAt(g, prev.value)] == |g.kids|;
      assert prev.value in g.kids[p];
    }
  }

  /** Cutting the same child off two forests that differ only below it leaves the same tree above. */
  lemma CutAgrees(f: Forest, g: Forest, c: nat, r: nat)
    requires Tidy(f) && Tidy(g) && Attached(f, c) && Attached(g, c) && f.par[c] == g.par[c]
    requires r < |f.kids| && c in Pre(f, r) && c != r
    requires forall m :: m in Pre(f, r) && m !in Pre(f, c) ==>
             m < |f.kids| && m < |g.kids| && g.kids[m] == f.kids[m]
    ensures Tidy(Detach(f, c)) && Tidy(Detach(g, c)) && r < |g.kids| && Pre(Detach(g, c), r) == Pre(Detach(f, c), r)
  {
    var d, e := Detach(f, c), Detach(g, c);
    DetachTidy(f, c);
    DetachTidy(g, c);
    InPreUp(f, r, c);
    DetachKeepsRest(f, c, r);
    assert r in Pre(f, r) && r !in Pre(f, c) by { if r in Pre(f, c) { InPreUp(f, c, r); } }
    forall m | m in Pre(d, r) ensures m < |d.kids| && m < |e.kids| && e.kids[m] == d.kids[m] {
      assert m in Pre(f, r) && m !in Pre(f, c);
    }
    PreAgree(d, e, r);
  }

  /** Whether `w` is hollow without `c` is the same in two documents that differ only below `c`. */
  lemma HollowAgrees(a: Arena, f: Forest, pool: Bytes, b: Arena, g: Forest, pool': Bytes, ink: Ink, c: nat, w: nat)
    requires Tidy(f) && Tidy(g) && |a| == |f.kids| <= |b| == |g.kids| && w < |a| && Extends(a, pool, b, pool')
    requires Attached(f, c) && Attached(g, c) && f.par[c] == g.par[c] == Some(w)
    requires forall m :: m in Pre(f, w) && m !in Pre(f, c) ==>
             m < |f.kids| && m < |g.kids| && g.kids[m] == f.kids[m]
    ensures HollowUp(b, g, pool', ink, w, c) <==> HollowUp(a, f, pool, ink, w, c)
  {
    ParentNotBelow(f, c);
    InPreDown(f, w, w, c) by { assert w in Pre(f, w); }
    CutAgrees(f, g, c, w);
    TreeInRange(Detach(f, c), w);
    SeenKept(a, pool, b, pool', ink, Pre(Detach(f, c), w));
    assert Payload(b[w]) == Payload(a[w]);
    assert w in Pre(f, w);
  }

  lemma ParentNotBelow(f: Forest, c: nat)
    requires Tidy(f) && Attached(f, c) && c < |f.kids|
    ensures f.par[c].value !in Pre(f, c)
  {
    var p := f.par[c].value;
    assert ChildOk(f, p, f.kids[p][IndexOf(f.kids[p], c)]);
    if p in Pre(f, c) { InPreUp(f, c, p); }
  }

  /** Above the parent `p` of a pruned node everything is as before, so the climb takes the same nodes. */
  lemma {:induction false} GoesSame(a: Arena, f: Forest, pool: Bytes, b: Arena, g: Forest, pool': Bytes, ink: Ink,
                                    root: nat, index: nat, c: nat, v: nat)
    requires Linked(a, f) && Linked(b, g) && root < |a| && f.par[root] == None && index < |a| && index in Pre(f, root)
    requires Stepped(a, f, pool, b, g, pool', ink, root, index) && ListsKept(f, g, index)
    requires c in Pre(f, root) && c < |a| && f.par[index].value in Pre(f, c) && c !in Pre(f, index)
    ensures Goes(b, g, pool', ink, c, v) <==> Goes(a, f, pool, ink, c, v)
    decreases f.rank[c]
  {
    var p := f.par[index].value;
    InPreUp(f, root, c);
    if c != root {
      var w := f.par[c].value;
      assert ChildOk(f, w, f.kids[w][IndexOf(f.kids[w], c)]);
      assert c in Pre(f, c) && index in Pre(f, index);
      assert Stays(f, g, c);
      InPreUp(f, root, w);
      assert w in Pre(f, w);
      InPreDown(f, w, w, c);
      PreTransitive(f, w, c, p);
      assert w !in Pre(f, index) by { if w in Pre(f, index) { PreTransitive(f, index, w, c); } }
      assert w != root ==> Stays(f, g, w);
      forall m | m in Pre(f, w) && m !in Pre(f, c) ensures m < |f.kids| && m < |g.kids| && g.kids[m] == f.kids[m] {
        InPreUp(f, w, m);
      }
      HollowAgrees(a, f, pool, b, g, pool', ink, c, w);
      GoesSame(a, f, pool, b, g, pool', ink, root, index, w, v);
    }
  }

  /** The parent of a pruned node is to be pruned in turn exactly if it was hollow without it. */
  lemma ParentHollow(a: Arena, f: Forest, pool: Bytes, b: Arena, g: Forest, pool': Bytes, ink: Ink, root: nat,
      index: nat)
    requires Linked(a, f) && Linked(b, g) && root < |a| && index < |a| && index in Pre(f, root)
    requires Stepped(a, f, pool, b, g, pool', ink, root, index) && ListsKept(f, g, index)
    requires f.par[index].value < |a| && a[f.par[index].value].body.Branch?
    ensures Prunable(b, g, pool', ink, f.par[index].value) <==> HollowUp(a, f, pool, ink, f.par[index].value, index)
  {
    var p := f.par[index].value;
    assert Payload(b[p]) == Payload(a[p]);
    if g.kids[p] == [] { ChildlessUnseen(b, g, pool', ink, p); }
  }

  lemma ChildlessUnseen(a: Arena, f: Forest, pool: Bytes, ink: Ink, n: nat)
    requires Tidy(f) && n < |a| == |f.kids| && a[n].body.Branch? && f.kids[n] == []
    ensures InkSeen(a, pool, ink, Pre(f, n)) == [] && InkAll(a, pool, ink, Pre(f, n)) == []
  {
    assert Pre(f, n) == [n] + PreAll(f, n, []);
    BranchUnseen(a, pool, ink, n);
  }

  /** After one step the climb from the parent takes what the climb past the node took. */
  lemma ClimbsOn(a: Arena, f: Forest, pool: Bytes, b: Arena, g: Forest, pool': Bytes, ink: Ink, root: nat, index: nat,
      v: nat)
    requires Linked(a, f) && Linked(b, g) && root < |a| && f.par[root] == None && index < |a| && index in Pre(f, root)
    requires Stepped(a, f, pool, b, g, pool', ink, root, index) && ListsKept(f, g, index)
    requires f.par[index].value < |a| && a[f.par[index].value].body.Branch?
    ensures Removes(b, g, pool', ink, f.par[index].value, v) <==> Goes(a, f, pool, ink, index, v)
  {
    var p := f.par[index].value;
    assert ChildOk(f, p, f.kids[p][IndexOf(f.kids[p], index)]);
    ParentHollow(a, f, pool, b, g, pool', ink, root, index);
    InPreUp(f, root, index);
    assert index != root;
    InPreUp(f, root, p);
    assert p != root ==> Stays(f, g, p);
    ParentNotBelow(f, index);
    assert p in Pre(f, p);
    GoesSame(a, f, pool, b, g, pool', ink, root, index, p, v);
  }

  /** What the climb takes after one step, and the node taken by that step. */
  lemma RemovedUp(a: Arena, f: Forest, pool: Bytes, b: Arena, g: Forest, pool': Bytes, h: Forest, ink: Ink, root: nat,
      index: nat)
    requires Linked(a, f) && Linked(b, g) && root < |a| && f.par[root] == None && index < |a| && index in Pre(f, root)
    requires Stepped(a, f, pool, b, g, pool', ink, root, index) && ListsKept(f, g, index)
             && Prunable(a, f, pool, ink, index)
    requires f.par[index].value < |a| && a[f.par[index].value].body.Branch?
    requires RemovedAre(b, g, pool', ink, h, f.par[index].value) && LooseStay(g, h)
    ensures RemovedAre(a, f, pool, ink, h, index)
  {
    forall v | 0 <= v < |f.par| && Attached(f, v) ensures h.par[v] == None <==> Removes(a, f, pool, ink, index, v) {
      if v != index {
        assert Stays(f, g, v);
        ClimbsOn(a, f, pool, b, g, pool', ink, root, index, v);
      }
    }
  }

  /** No child of the parent of a pruned node goes after it: the climb is above them. */
  lemma ParentKeepsList(b: Arena, g: Forest, h: Forest, p: nat)
    requires Linked(b, g) && p < |b| && KidsAfter(b, g, h) && OthersStay(g, h, p)
    ensures h.kids[p] == g.kids[p]
  {
    forall c | c in g.kids[p] ensures c < |h.par| && h.par[c].Some? {
      assert ChildOk(g, p, g.kids[p][IndexOf(g.kids[p], c)]);
      if p in Pre(g, c) { InPreUp(g, c, p); }
      assert Stays(g, h, c);
    }
  }

  /** The lists after one step and the rest of the climb. */
  lemma KidsUp(a: Arena, f: Forest, pool: Bytes, b: Arena, g: Forest, pool': Bytes, h: Forest, ink: Ink, root: nat,
      index: nat)
    requires Linked(a, f) && Linked(b, g) && root < |a| && index < |a| && index in Pre(f, root)
    requires Stepped(a, f, pool, b, g, pool', ink, root, index) && ListsKept(f, g, index)
             && (!IsBlock(a[index].tag) ==> g == Detach(f, index))
    requires KidsAfter(b, g, h) && OthersStay(g, h, f.par[index].value) && LooseStay(g, h)
    ensures KidsAfter(a, f, h)
  {
    var p := f.par[index].value;
    assert ChildOk(f, p, f.kids[p][IndexOf(f.kids[p], index)]);
    ParentKeepsList(b, g, h, p);
    forall w | 0 <= w < |f.kids| && !ChildGone(f, h, w) ensures h.kids[w] == f.kids[w] {
      assert w != p by { assert index in f.kids[p] && h.par[index] == None; }
      assert g.kids[w] == f.kids[w];
    }
    forall v | 0 <= v < |f.par| && Attached(f, v) && h.par[v] == None && !IsBlock(a[v].tag)
        ensures ListWithout(f, h, v) {
      if v != index {
        assert Stays(f, g, v) && Payload(b[v]) == Payload(a[v]);
        assert ListWithout(g, h, v);
        HigherParent(f, g, h, p, v);
      }
    }
  }

  /** What goes after the parent is looked at is the parent or above it, and so is not listed by it. */
  lemma HigherParent(f: Forest, g: Forest, h: Forest, p: nat, v: nat)
    requires Tidy(f) && Tidy(g) && p < |g.kids| && OthersStay(g, h, p) && Attached(f, v) && Attached(g, v)
             && f.par[v] == g.par[v] && v < |h.par| && h.par[v] == None
    ensures f.par[v].value != p
  {
    assert !Stays(g, h, v);
    InPreUp(g, v, p);
    assert ChildOk(g, g.par[v].value, g.kids[g.par[v].value][IndexOf(g.kids[g.par[v].value], v)]);
  }

  // ---- one step of the climb ----

  /** `index` is an element in the tree at `root`, and there is room for one space per ancestor. */
  ghost predicate PruneReady(a: Arena, f: Forest, width: Width, pool: Bytes, root: nat, index: nat)
    requires Linked(a, f)
  {
    && root < |a| && f.par[root] == None && index < |a| && index in Pre(f, root) && a[index].body.Branch?
    && |a| + Depth(f, root, index) <= Sentinel(width) && |pool| + Depth(f, root, index) < U32
  }

  /** Only nodes whose tree holds `index` may have lost their place. */
  ghost predicate OthersStay(f: Forest, g: Forest, index: nat)
    requires Tidy(f)
  {
    forall n :: 0 <= n < |f.kids| && index !in Pre(f, n) ==> Stays(f, g, n)
  }

  ghost predicate LooseStay(f: Forest, g: Forest) {
    |f.par| <= |g.par| && forall n :: 0 <= n < |f.par| && f.par[n] == None ==> g.par[n] == None
  }

  /** To readers and to the whitespace test, `g` is `f` without the tree at `index`; what is new shows nothing. */
  ghost predicate Bare(a: Arena, f: Forest, pool: Bytes, b: Arena, g: Forest, pool': Bytes, ink: Ink, index: nat)
    requires Tidy(f) && Tidy(g) && |f.kids| <= |g.kids| && Attached(f, index)
  {
    DetachTidy(f, index);
    && InkAsIn(a, pool, Detach(f, index), b, g, pool', ink) && SeenAsIn(a, pool, Detach(f, index), b, g, pool', ink)
    && forall t :: |f.kids| <= t < |g.kids| ==> InkAll(b, pool', ink, Pre(g, t)) == []
  }

  /** `index`, not the root, was taken out of its tree, and perhaps a space put where it was. */
  ghost predicate Stepped(a: Arena, f: Forest, pool: Bytes, b: Arena, g: Forest, pool': Bytes, ink: Ink, root: nat,
      index: nat)
    requires Linked(a, f) && Linked(b, g) && root < |a| && index < |a| && index in Pre(f, root)
  {
    && Extends(a, pool, b, pool') && |a| <= |b| <= |a| + 1 && |pool'| <= |pool| + 1
    && Attached(f, index) && f.par[index].value in Pre(g, root) && g.par[root] == None
    && Depth(g, root, f.par[index].value) + 1 == Depth(f, root, index)
    && Bare(a, f, pool, b, g, pool', ink, index)
    && PlacesKept(f, g, root, index)
  }

  /** Apart from `index` every node has kept its place, and no tree has gained its old parent. */
  ghost predicate PlacesKept(f: Forest, g: Forest, root: nat, index: nat)
    requires Tidy(f) && Tidy(g) && root < |f.kids| <= |g.kids| && index < |f.kids| && Attached(f, index)
  {
    && g.par[index] == None && LooseStay(f, g)
    && (forall n :: 0 <= n < |f.kids| && n != index ==> Stays(f, g, n))
    && (forall n :: 0 <= n < |f.kids| && Attached(g, n) ==> Attached(f, n))
    && (forall n :: 0 <= n < |g.kids| && f.par[index].value in Pre(g, n) ==>
       n < |f.kids| && f.par[index].value in Pre(f, n))
    && (forall n :: n in Pre(f, root) && n !in Pre(f, index) ==> n in Pre(g, root))
  }

  /** Where the space went: child number `SpaceAt` of the parent of `prev`. */
  ghost function SpaceAt(g: Forest, prev: nat): nat
    requires Attached(g, prev)
  {
    IndexOf(g.kids[g.par[prev].value], prev) + 1
  }

  /** `h` is `f` without `index`, with a space after `prev` if one was added. */
  ghost predicate StepsTo(f: Forest, h: Forest, index: nat, r: Outcome, prev: Option<nat>)
    requires Even(f) && Attached(f, index)
  {
    var g := Detach(f, index);
    if r.Added? then
      prev.Some? && Attached(g, prev.value) && g.par[prev.value].value < |g.kids|
          && SpaceAt(g, prev.value) <= |g.kids[g.par[prev.value].value]|
      && h == AddLeaf(g, g.par[prev.value].value, SpaceAt(g, prev.value))
    else h == g
  }

  /** No tree gains an old node. */
  lemma StepShrinks(f: Forest, h: Forest, index: nat, r: Outcome, prev: Option<nat>, n: nat)
    requires Tidy(f) && Attached(f, index) && n < |f.kids| && StepsTo(f, h, index, r, prev)
    ensures Tidy(h) && n < |h.kids| && forall m :: m in Pre(h, n) && m < |f.kids| ==> m in Pre(f, n)
  {
    var g := Detach(f, index);
    DetachTidy(f, index);
    if f.par[index].value in Pre(f, n) {
      var s, t := DetachDocument(f, index, n);
    } else {
      DetachElsewhere(f, index, n);
    }
    if r.Added? { AddLeafKeepsRest(g, g.par[prev.value].value, SpaceAt(g, prev.value), n); }
  }

  lemma NewLeafAlone(f: Forest, p: nat, k: nat)
    requires Tidy(f) && p < |f.kids| && k <= |f.kids[p]|
    ensures Tidy(AddLeaf(f, p, k)) && Pre(AddLeaf(f, p, k), |f.kids|) == [|f.kids|]
  {
    AddLeafTidy(f, p, k);
    var g := AddLeaf(f, p, k);
    assert Pre(g, |f.kids|) == [|f.kids|] + PreAll(g, |f.kids|, []);
  }

  lemma StepTree(f: Forest, h: Forest, root: nat, index: nat, r: Outcome, prev: Option<nat>)
    requires Tidy(f) && root < |f.kids| && f.par[root] == None && index in Pre(f, root) && index != root
             && index < |f.kids|
    requires Attached(f, index) && StepsTo(f, h, index, r, prev)
    ensures Tidy(h) && root < |h.kids| && f.par[index].value in Pre(f, root) && f.par[index].value in Pre(h, root)
    ensures forall n :: n in Pre(f, root) && n !in Pre(f, index) ==> n in Pre(h, root)
    ensures Depth(h, root, f.par[index].value) + 1 == Depth(f, root, index)
  {
    DetachKeepsRest(f, index, root);
    InPreUp(f, root, index);
    var g := Detach(f, index);
    if r.Added? { AddLeafKeepsRest(g, g.par[prev.value].value, SpaceAt(g, prev.value), root); }
    DepthSame(f, h, root, f.par[index].value);
  }

  lemma StepPlaces(f: Forest, h: Forest, root: nat, index: nat, r: Outcome, prev: Option<nat>)
    requires Tidy(f) && root < |f.kids| && f.par[root] == None && index in Pre(f, root) && index != root
             && index < |f.kids|
    requires Attached(f, index) && StepsTo(f, h, index, r, prev)
    ensures Tidy(h) && |f.kids| <= |h.kids| && PlacesKept(f, h, root, index)
  {
    StepTree(f, h, root, index, r, prev);
    var g := Detach(f, index);
    DetachTidy(f, index);
    assert Kin(f, f.par[index].value, f.kids[f.par[index].value]);
    forall n | 0 <= n < |f.kids| && n != index ensures Stays(f, h, n) {
      DetachStays(f, index, n);
      if r.Added? { AddLeafStays(g, g.par[prev.value].value, SpaceAt(g, prev.value), n); }
    }
    forall n | 0 <= n < |f.kids| && Attached(h, n) ensures Attached(f, n) {
      if r.Added? { AddLeafAttached(g, g.par[prev.value].value, SpaceAt(g, prev.value), n); }
      DetachAttached(f, index, n);
    }
    forall n | 0 <= n < |h.kids| && f.par[index].value in Pre(h, n)
        ensures n < |f.kids| && f.par[index].value in Pre(f, n) {
      if n < |f.kids| {
        StepShrinks(f, h, index, r, prev, n);
      } else {
        NewLeafAlone(g, g.par[prev.value].value, SpaceAt(g, prev.value));
      }
    }
  }

  lemma StepInk(a: Arena, f: Forest, pool: Bytes, c: Arena, h: Forest, pool': Bytes, ink: Ink, index: nat, r: Outcome,
      prev: Option<nat>)
    requires Tidy(f) && Attached(f, index) && StepsTo(f, h, index, r, prev) && |a| == |f.kids|
    requires Extends(a, pool, c, pool') && (r.Added? ==> Quiet(c, pool', ink, |a|))
    ensures Tidy(h) && |f.kids| <= |h.kids| && Bare(a, f, pool, c, h, pool', ink, index)
  {
    var g := Detach(f, index);
    DetachTidy(f, index);
    if r.Added? {
      LeafInk(a, g, pool, c, h, pool', ink, g.par[prev.value].value, SpaceAt(g, prev.value));
    } else {
      SameForestInk(a, g, pool, c, pool', ink);
    }
  }

  lemma SameForestInk(a: Arena, g: Forest, pool: Bytes, c: Arena, pool': Bytes, ink: Ink)
    requires Tidy(g) && |a| == |g.kids| && Extends(a, pool, c, pool')
    ensures InkAsIn(a, pool, g, c, g, pool', ink) && SeenAsIn(a, pool, g, c, g, pool', ink)
  {
    forall t | 0 <= t < |g.kids|
        ensures InkAll(c, pool', ink, Pre(g, t)) == InkAll(a, pool, ink, Pre(g, t))
        ensures InkSeen(c, pool', ink, Pre(g, t)) == InkSeen(a, pool, ink, Pre(g, t)) {
      TreeInRange(g, t);
      InkKept(a, pool, c, pool', ink, Pre(g, t));
      SeenKept(a, pool, c, pool', ink, Pre(g, t));
    }
  }

  /** With one more leaf that is quiet. */
  lemma LeafInk(a: Arena, g: Forest, pool: Bytes, c: Arena, h: Forest, pool': Bytes, ink: Ink, p: nat, k: nat)
    requires Tidy(g) && |a| == |g.kids| && Extends(a, pool, c, pool') && Quiet(c, pool', ink, |a|)
    requires p < |g.kids| && k <= |g.kids[p]| && h == AddLeaf(g, p, k)
    ensures Tidy(h) && |h.kids| == |g.kids| + 1
    ensures InkAsIn(a, pool, g, c, h, pool', ink) && SeenAsIn(a, pool, g, c, h, pool', ink)
    ensures forall t :: |g.kids| <= t < |h.kids| ==> InkAll(c, pool', ink, Pre(h, t)) == []
  {
    SameForestInk(a, g, pool, c, pool', ink);
    AddLeafTidy(g, p, k);
    forall t | 0 <= t < |g.kids|
        ensures InkAll(c, pool', ink, Pre(h, t)) == InkAll(a, pool, ink, Pre(g, t))
        ensures InkSeen(c, pool', ink, Pre(h, t)) == InkSeen(a, pool, ink, Pre(g, t)) {
      AddLeafInk(c, pool', ink, g, p, k, t);
    }
    NewLeafAlone(g, p, k);
    assert InkAll(c, pool', ink, [|a|]) == InkOf(c, pool', ink, |a|) + InkAll(c, pool', ink, []);
  }

  lemma ExtendsOn(a: Arena, pool: Bytes, b: Arena, pool': Bytes, c: Arena, pool'': Bytes)
    requires Extends(a, pool, b, pool') && Extends(b, pool', c, pool'')
    ensures Extends(a, pool, c, pool'')
  {
    assert forall m :: 0 <= m < |a| ==> Payload(b[m]) == Payload(a[m]) && Payload(c[m]) == Payload(b[m]);
  }

  lemma StepForest(a: Arena, f: Forest, pool: Bytes, c: Arena, h: Forest, pool': Bytes, ink: Ink, root: nat,
      index: nat, r: Outcome, prev: Option<nat>)
    requires Linked(a, f) && Linked(c, h) && root < |a| && f.par[root] == None && index < |a| && index in Pre(f, root)
             && index != root
    requires Attached(f, index) && Extends(a, pool, c, pool') && StepsTo(f, h, index, r, prev)
    requires |a| <= |c| <= |a| + 1 && |pool'| <= |pool| + 1 && (r.Added? ==> Quiet(c, pool', ink, |a|))
    ensures Stepped(a, f, pool, c, h, pool', ink, root, index)
  {
    StepInk(a, f, pool, c, h, pool', ink, index, r, prev);
    StepTree(f, h, root, index, r, prev);
    StepPlaces(f, h, root, index, r, prev);
  }

  // ---- the visible text that is lost ----

  /** Every node that lost its place showed nothing. */
  ghost predicate BlankGone(a: Arena, f: Forest, pool: Bytes, ink: Ink, h: Forest)
    requires Tidy(f)
  {
    forall v :: 0 <= v < |f.par| && v < |h.par| && Attached(f, v) && h.par[v] == None ==>
      InkAll(a, pool, ink, Pre(f, v)) == []
  }

  /** Nothing that pruning from `index` upwards takes has visible text, told from the document before. */
  ghost predicate Harmless(a: Arena, f: Forest, pool: Bytes, ink: Ink, index: nat)
    requires index < |a| == |f.kids| && Tidy(f)
  {
    forall v :: 0 <= v < |f.par| && Attached(f, v) && Removes(a, f, pool, ink, index, v) ==>
      InkAll(a, pool, ink, Pre(f, v)) == []
  }

  lemma HarmlessIs(a: Arena, f: Forest, pool: Bytes, ink: Ink, h: Forest, index: nat)
    requires index < |a| == |f.kids| && Tidy(f) && RemovedAre(a, f, pool, ink, h, index)
    ensures BlankGone(a, f, pool, ink, h) <==> Harmless(a, f, pool, ink, index)
  {
  }

  /** No text node of the document is empty. */
  predicate FullTexts(a: Arena) {
    forall n :: 0 <= n < |a| ==> !EmptyText(a, n)
  }

  /** Then the test sees everything. */
  lemma AllSeen(a: Arena, f: Forest, pool: Bytes, ink: Ink, r: nat)
    requires Tidy(f) && r < |f.kids| == |a| && FullTexts(a)
    ensures InkSeen(a, pool, ink, Pre(f, r)) == InkAll(a, pool, ink, Pre(f, r))
  {
    TreeInRange(f, r);
    SeenIsAll(a, pool, ink, Pre(f, r));
  }

  lemma HollowBlank(a: Arena, f: Forest, pool: Bytes, ink: Ink, w: nat, c: nat)
    requires Linked(a, f) && FullTexts(a) && Attached(f, c) && f.par[c] == Some(w) && w < |a|
    requires InkAll(a, pool, ink, Pre(f, c)) == [] && HollowUp(a, f, pool, ink, w, c)
    ensures InkAll(a, pool, ink, Pre(f, w)) == []
  {
    DetachTidy(f, c);
    if a[w].tag == BODY || IsBlock(a[w].tag) {
      AllSeen(a, Detach(f, c), pool, ink, w);
      DetachInk(a, pool, ink, f, c, w);
    } else {
      PreAllOne(f, w, c) by { assert ChildOk(f, w, f.kids[w][0]); }
      EndChildren(a, f, w);
      BranchUnseen(a, pool, ink, w);
      InkAppend(a, pool, ink, [w], Pre(f, c));
    }
  }

  lemma {:induction false} GoesBlank(a: Arena, f: Forest, pool: Bytes, ink: Ink, c: nat, v: nat)
    requires Linked(a, f) && FullTexts(a) && v < |a| && c < |a|
    requires InkAll(a, pool, ink, Pre(f, c)) == [] && Goes(a, f, pool, ink, c, v)
    ensures InkAll(a, pool, ink, Pre(f, v)) == []
    decreases f.rank[c]
  {
    var w := f.par[c].value;
    assert ChildOk(f, w, f.kids[w][IndexOf(f.kids[w], c)]);
    HollowBlank(a, f, pool, ink, w, c);
    if w != v { GoesBlank(a, f, pool, ink, w, v); }
  }

  /** Where no text node is empty, pruning takes nothing that has visible text. */
  lemma FullIsHarmless(a: Arena, f: Forest, pool: Bytes, ink: Ink, index: nat)
    requires Linked(a, f) && FullTexts(a) && index < |a| && a[index].body.Branch?
    ensures Harmless(a, f, pool, ink, index)
  {
    forall v | 0 <= v < |f.par| && Attached(f, v) && Removes(a, f, pool, ink, index, v)
        ensures InkAll(a, pool, ink, Pre(f, v)) == [] {
      AllSeen(a, f, pool, ink, index);
      if f.kids[index] == [] { ChildlessUnseen(a, f, pool, ink, index); }
      if v != index { GoesBlank(a, f, pool, ink, index, v); }
    }
  }

  /** One step keeps all visible text exactly if the node taken out had none. */
  lemma StepLoses(a: Arena, f: Forest, pool: Bytes, b: Arena, g: Forest, pool': Bytes, ink: Ink, root: nat, index: nat)
    requires Linked(a, f) && Linked(b, g) && root < |a| && f.par[root] == None && index < |a| && index in Pre(f, root)
    requires Stepped(a, f, pool, b, g, pool', ink, root, index)
    ensures InkLess(a, pool, f, b, g, pool', ink)
    ensures InkAsIn(a, pool, f, b, g, pool', ink) <==> InkAll(a, pool, ink, Pre(f, index)) == []
  {
    forall t | 0 <= t < |f.kids| ensures |InkAll(b, pool', ink, Pre(g, t))| <= |InkAll(a, pool, ink, Pre(f, t))| {
      DetachTakes(a, pool, ink, f, index, t);
    }
    if InkAll(a, pool, ink, Pre(f, index)) == [] {
      forall t | 0 <= t < |f.kids| ensures InkAll(b, pool', ink, Pre(g, t)) == InkAll(a, pool, ink, Pre(f, t)) {
        DetachInk(a, pool, ink, f, index, t);
      }
    } else {
      DetachTakes(a, pool, ink, f, index, root);
      InPreUp(f, root, index);
      assert |InkAll(b, pool', ink, Pre(g, root))| != |InkAll(a, pool, ink, Pre(f, root))|;
    }
  }

  /** What went after one step, told from the document before that step. */
  lemma BlankUp(a: Arena, f: Forest, pool: Bytes, b: Arena, g: Forest, pool': Bytes, h: Forest, ink: Ink, root: nat,
      index: nat)
    requires Linked(a, f) && Linked(b, g) && root < |a| && f.par[root] == None && index < |a| && index in Pre(f, root)
    requires Stepped(a, f, pool, b, g, pool', ink, root, index) && OthersStay(g, h, f.par[index].value)
             && LooseStay(g, h)
    requires InkAsIn(a, pool, f, b, g, pool', ink) && InkAll(a, pool, ink, Pre(f, index)) == []
    ensures BlankGone(b, g, pool', ink, h) <==> BlankGone(a, f, pool, ink, h)
  {
    if BlankGone(a, f, pool, ink, h) { BlankAfter(a, f, pool, b, g, pool', h, ink, root, index); }
    if BlankGone(b, g, pool', ink, h) {
      forall v | 0 <= v < |f.par| && v < |h.par| && Attached(f, v) && h.par[v] == None
          ensures InkAll(a, pool, ink, Pre(f, v)) == [] {
        if v != index { assert Stays(f, g, v); }
      }
    }
  }

  lemma BlankAfter(a: Arena, f: Forest, pool: Bytes, b: Arena, g: Forest, pool': Bytes, h: Forest, ink: Ink, root: nat,
      index: nat)
    requires Linked(a, f) && Linked(b, g) && root < |a| && index < |a| && index in Pre(f, root)
    requires Stepped(a, f, pool, b, g, pool', ink, root, index) && InkAsIn(a, pool, f, b, g, pool', ink)
    requires BlankGone(a, f, pool, ink, h)
    ensures BlankGone(b, g, pool', ink, h)
  {
    forall v | 0 <= v < |g.par| && v < |h.par| && Attached(g, v) && h.par[v] == None
        ensures InkAll(b, pool', ink, Pre(g, v)) == [] {
      assert v < |f.kids| ==> Attached(f, v);
    }
  }

  /** In two stages no tree gains visible text, and if the first loses none, the second decides. */
  lemma SameOnward(a: Arena, f: Forest, pool: Bytes, b: Arena, g: Forest, pool': Bytes, c: Arena, h: Forest,
      pool'': Bytes, ink: Ink)
    requires Tidy(f) && Tidy(g) && Tidy(h) && |f.kids| <= |g.kids| <= |h.kids|
    requires InkLess(a, pool, f, b, g, pool', ink) && InkLess(b, pool', g, c, h, pool'', ink)
    requires forall t :: |f.kids| <= t < |g.kids| ==> InkAll(b, pool', ink, Pre(g, t)) == []
    ensures InkLess(a, pool, f, c, h, pool'', ink)
    ensures InkAsIn(a, pool, f, b, g, pool', ink) ==>
            (InkAsIn(a, pool, f, c, h, pool'', ink) <==> InkAsIn(b, pool', g, c, h, pool'', ink))
  {
    forall t | 0 <= t < |f.kids| ensures |InkAll(c, pool'', ink, Pre(h, t))| <= |InkAll(a, pool, ink, Pre(f, t))| {
      assert |InkAll(c, pool'', ink, Pre(h, t))| <= |InkAll(b, pool', ink, Pre(g, t))|;
    }
    if InkAsIn(a, pool, f, b, g, pool', ink) && InkAsIn(a, pool, f, c, h, pool'', ink) {
      forall t | 0 <= t < |g.kids| ensures InkAll(c, pool'', ink, Pre(h, t)) == InkAll(b, pool', ink, Pre(g, t)) {
        assert |InkAll(c, pool'', ink, Pre(h, t))| <= |InkAll(b, pool', ink, Pre(g, t))|;
        if t < |f.kids| { assert InkAll(c, pool'', ink, Pre(h, t)) == InkAll(a, pool, ink, Pre(f, t)); }
      }
    }
    if InkAsIn(a, pool, f, b, g, pool', ink) && InkAsIn(b, pool', g, c, h, pool'', ink) {
      forall t | 0 <= t < |f.kids| ensures InkAll(c, pool'', ink, Pre(h, t)) == InkAll(a, pool, ink, Pre(f, t)) {
        assert InkAll(c, pool'', ink, Pre(h, t)) == InkAll(b, pool', ink, Pre(g, t));
      }
    }
  }

  /** If all is shown that was, then nothing was lost on the way. */
  lemma LostOnTheWay(a: Arena, f: Forest, pool: Bytes, b: Arena, g: Forest, pool': Bytes, c: Arena, h: Forest,
      pool'': Bytes, ink: Ink, root: nat, index: nat)
    requires Linked(a, f) && Linked(b, g) && Tidy(h) && |g.kids| <= |h.kids|
    requires root < |a| && f.par[root] == None && index < |a| && index in Pre(f, root)
    requires Stepped(a, f, pool, b, g, pool', ink, root, index) && InkLess(b, pool', g, c, h, pool'', ink)
    requires InkAsIn(a, pool, f, c, h, pool'', ink)
    ensures InkAll(a, pool, ink, Pre(f, index)) == []
  {
    DetachTakes(a, pool, ink, f, index, root);
    InPreUp(f, root, index);
    assert |InkAll(c, pool'', ink, Pre(h, root))| <= |InkAll(b, pool', ink, Pre(g, root))|;
    assert InkAll(c, pool'', ink, Pre(h, root)) == InkAll(a, pool, ink, Pre(f, root));
  }

  // ---- around a node ----

  lemma SiblingOutside(f: Forest, root: nat, p: nat, k: nat, j: nat)
    requires Tidy(f) && root < |f.kids| && p in Pre(f, root) && p < |f.kids| && k < |f.kids[p]| && j < |f.kids[p]|
             && f.kids[p][k] != f.kids[p][j]
    ensures var i, v := f.kids[p][k], f.kids[p][j];
            i < |f.kids| && v < |f.kids| && Attached(f, v) && f.par[v] == Some(p) && v in Pre(f, root)
                && v !in Pre(f, i)
  {
    var i, v := f.kids[p][k], f.kids[p][j];
    assert Kin(f, p, f.kids[p]) && ChildOk(f, p, f.kids[p][k]) && ChildOk(f, p, f.kids[p][j]);
    InPreDown(f, root, p, v);
    assert v in Pre(f, v);
    SiblingsApart(f, p, v, i, v);
  }

  /** A sibling or the parent of a node is not in the node's own tree. */
  lemma RelativesOutside(f: Forest, a: Arena, root: nat, index: nat)
    requires Linked(a, f) && root < |f.kids| && index in Pre(f, root) && index != root && index < |f.kids|
    ensures Attached(f, index) && f.par[index].value in Pre(f, root) && f.par[index].value !in Pre(f, index)
    ensures forall v :: (a[index].prev == Some(v) || a[index].next == Some(v)) ==>
              v < |a| && v != index && Attached(f, v) && v in Pre(f, root) && v !in Pre(f, index)
                  && f.par[v] == f.par[index]
  {
    ParentInTree(f, root, index);
    forall v | a[index].prev == Some(v) || a[index].next == Some(v)
        ensures v < |a| && v != index && Attached(f, v) && v in Pre(f, root) && v !in Pre(f, index)
                && f.par[v] == f.par[index] {
      RelativeOutside(f, a, root, index, v);
    }
  }

  lemma RelativeOutside(f: Forest, a: Arena, root: nat, index: nat, v: nat)
    requires Linked(a, f) && root < |f.kids| && index in Pre(f, root) && index < |f.kids| && Attached(f, index)
    requires f.par[index].value in Pre(f, root) && (a[index].prev == Some(v) || a[index].next == Some(v))
    ensures v < |a| && v != index && Attached(f, v) && v in Pre(f, root) && v !in Pre(f, index)
            && f.par[v] == f.par[index]
  {
    Neighbours(a, f, index);
    var p := f.par[index].value;
    var ks, k := f.kids[p], IndexOf(f.kids[p], index);
    assert NoDup(ks);
    SiblingOutside(f, root, p, k, if a[index].prev == Some(v) then k - 1 else k + 1);
  }

  lemma ParentInTree(f: Forest, root: nat, index: nat)
    requires Tidy(f) && root < |f.kids| && index in Pre(f, root) && index != root && index < |f.kids|
    ensures Attached(f, index) && f.par[index].value < |f.kids|
    ensures f.par[index].value in Pre(f, root) && f.par[index].value !in Pre(f, index)
  {
    InPreUp(f, root, index);
    ParentNotBelow(f, index);
  }

  /** Without `index`, the sibling after it still hangs in the tree. */
  lemma NextGrounded(a: Arena, f: Forest, root: nat, index: nat)
    requires Linked(a, f) && root < |a| && f.par[root] == None && index in Pre(f, root) && Attached(f, index)
    ensures Tidy(Detach(f, index)) && (a[index].next.Some? ==> Grounded(Detach(f, index), a[index].next.value))
  {
    DetachTidy(f, index);
    if a[index].next.Some? {
      RelativesOutside(f, a, root, index);
      DetachKeepsRest(f, index, root);
      TopIs(Detach(f, index), root, a[index].next.value);
    }
  }

  lemma SiblingsAttached(a: Arena, f: Forest, index: nat)
    requires Linked(a, f) && Attached(f, index)
    ensures forall v :: (a[index].prev == Some(v) || a[index].next == Some(v)) ==>
            v < |a| && v != index && Attached(f, v) && f.par[v] == f.par[index]
  {
    Neighbours(a, f, index);
    var p := f.par[index].value;
    var ks, k := f.kids[p], IndexOf(f.kids[p], index);
    assert Kin(f, p, ks) && NoDup(ks);
    assert k > 0 ==> ChildOk(f, p, ks[k - 1]);
    assert k + 1 < |ks| ==> ChildOk(f, p, ks[k + 1]);
  }

  // ---- the whole climb ----

  /**
   What pruning upwards from `index` did: some ancestors-or-selves of it are gone, up to but not
   including `kept`; nothing else lost its place, and the visible text of all trees is what it was
   exactly if nothing that went had any.
   */
  ghost predicate Pruned(a: Arena, f: Forest, pool: Bytes, b: Arena, g: Forest, pool': Bytes, ink: Ink, root: nat,
      index: nat, kept: nat)
    requires Linked(a, f) && Linked(b, g) && root < |a| && index < |a| && index in Pre(f, root)
  {
    && Extends(a, pool, b, pool') && |a| <= |b| <= |a| + Depth(f, root, index)
       && |pool'| <= |pool| + Depth(f, root, index)
    && g.par[root] == None && kept < |a| && kept in Pre(g, root) && index in Pre(f, kept)
    && InkLess(a, pool, f, b, g, pool', ink)
    && (InkAsIn(a, pool, f, b, g, pool', ink) <==> BlankGone(a, f, pool, ink, g))
    && OthersStay(f, g, index) && LooseStay(f, g)
    && forall n :: 0 <= n < |f.kids| ==> Stays(f, g, n) || g.par[n] == None
  }

  /** The node the climb stops at is the root or has something worth keeping. */
  ghost predicate Settled(b: Arena, g: Forest, pool: Bytes, ink: Ink, kept: nat)
    requires Linked(b, g) && kept < |b|
  {
    g.par[kept] == None || !Prunable(b, g, pool, ink, kept)
  }

  lemma PruneNothing(a: Arena, f: Forest, pool: Bytes, ink: Ink, root: nat, index: nat)
    requires Linked(a, f) && TextsOk(a, |pool|) && root < |a| && f.par[root] == None && index < |a|
             && index in Pre(f, root)
    ensures Pruned(a, f, pool, a, f, pool, ink, root, index, index)
  {
    assert index in Pre(f, index);
  }

  /** The visible text after one step up and the rest of the climb. */
  lemma InkOnward(a: Arena, f: Forest, pool: Bytes, b: Arena, g: Forest, pool': Bytes, c: Arena, h: Forest,
      pool'': Bytes, ink: Ink, root: nat, index: nat, kept: nat)
    requires Linked(a, f) && Linked(b, g) && Linked(c, h) && root < |a| && index < |a| && index in Pre(f, root)
             && f.par[root] == None
    requires Stepped(a, f, pool, b, g, pool', ink, root, index) && f.par[index].value < |a|
    requires Pruned(b, g, pool', c, h, pool'', ink, root, f.par[index].value, kept)
    ensures InkLess(a, pool, f, c, h, pool'', ink)
    ensures InkAsIn(a, pool, f, c, h, pool'', ink) <==> BlankGone(a, f, pool, ink, h)
  {
    StepLoses(a, f, pool, b, g, pool', ink, root, index);
    SameOnward(a, f, pool, b, g, pool', c, h, pool'', ink);
    if InkAll(a, pool, ink, Pre(f, index)) == [] {
      BlankUp(a, f, pool, b, g, pool', h, ink, root, index);
    } else {
      if InkAsIn(a, pool, f, c, h, pool'', ink) {
        LostOnTheWay(a, f, pool, b, g, pool', c, h, pool'', ink, root, index);
      }
      assert Attached(f, index) && h.par[index] == None;
    }
  }

  /** One step up, then the rest of the climb. */
  lemma PruneOnward(a: Arena, f: Forest, pool: Bytes, b: Arena, g: Forest, pool': Bytes, c: Arena, h: Forest,
      pool'': Bytes, ink: Ink, root: nat, index: nat, kept: nat)
    requires Linked(a, f) && Linked(b, g) && Linked(c, h) && root < |a| && index < |a| && index in Pre(f, root)
             && f.par[root] == None
    requires Stepped(a, f, pool, b, g, pool', ink, root, index) && f.par[index].value < |a|
    requires Pruned(b, g, pool', c, h, pool'', ink, root, f.par[index].value, kept) && kept < |a|
    ensures Pruned(a, f, pool, c, h, pool'', ink, root, index, kept)
  {
    var p := f.par[index].value;
    InkOnward(a, f, pool, b, g, pool', c, h, pool'', ink, root, index, kept);
    assert forall m :: 0 <= m < |a| ==> Payload(b[m]) == Payload(a[m]) && Payload(c[m]) == Payload(b[m]);
    assert index in Pre(f, kept) by { InPreDown(f, kept, p, index); }
    forall n | 0 <= n < |f.kids| && index !in Pre(f, n) ensures Stays(f, h, n) {
      assert n != index by { assert index in Pre(f, index); }
      if p in Pre(g, n) { InPreDown(f, n, p, index); }
      assert Stays(f, g, n) && Stays(g, h, n);
    }
    forall n | 0 <= n < |f.kids| ensures Stays(f, h, n) || h.par[n] == None {
      assert n != index ==> Stays(f, g, n);
      assert Stays(g, h, n) || h.par[n] == None;
    }
  }

  /** The climb never stops at a node it has just pruned. */
  lemma KeptIsAbove(a: Arena, f: Forest, pool: Bytes, b: Arena, g: Forest, pool': Bytes, ink: Ink, root: nat,
      index: nat, kept: nat)
    requires Linked(a, f) && Linked(b, g) && root < |a| && index < |a| && index in Pre(f, root) && index != root
    requires Stepped(a, f, pool, b, g, pool', ink, root, index) && kept < |g.kids| && f.par[index].value in Pre(g, kept)
    ensures kept != index
  {
    RelativesOutside(f, a, root, index);
  }
}
