/**
 The visible text of a document: its characters that are no whitespace, in document order, and what
 the program's whitespace test gets to see of them.
 */
module VisibleText {
  import opened LittleEndian
  import opened NodeLayout
  import opened Forest
  import opened ForestEdits
  import opened Links
  import opened Dom
  import opened Spaces

  /** The non-whitespace characters of a text; a single space has none, nor has an empty text. */
  type Ink = Bytes -> seq<nat>

  predicate BlankSpace(ink: Ink) {
    ink(SPACE) == [] && ink([]) == []
  }

  // ---- the visible text of a stretch of nodes ----

  function InkOf(a: Arena, pool: Bytes, ink: Ink, x: nat): seq<nat> {
    if x < |a| && a[x].tag == SYS_TEXT && a[x].body.Text? && TextIn(a, |pool|, x) then ink(TextOf(a, pool, x)) else []
  }

  function InkAll(a: Arena, pool: Bytes, ink: Ink, order: Ids): seq<nat> {
    if order == [] then [] else InkOf(a, pool, ink, order[0]) + InkAll(a, pool, ink, order[1..])
  }

  /** A text node without any text, where the program's character iterators end. */
  predicate EmptyText(a: Arena, x: nat) {
    x < |a| && a[x].tag == SYS_TEXT && a[x].body.Text? && a[x].body.start == a[x].body.end
  }

  /** The visible text that the whitespace test gets to see: what comes before the first empty text node. */
  function InkSeen(a: Arena, pool: Bytes, ink: Ink, order: Ids): seq<nat> {
    if order == [] || EmptyText(a, order[0]) then []
    else InkOf(a, pool, ink, order[0]) + InkSeen(a, pool, ink, order[1..])
  }

  /** None of the nodes is an empty text. */
  predicate NoneEmpty(a: Arena, order: Ids) {
    forall k :: 0 <= k < |order| ==> !EmptyText(a, order[k])
  }

  lemma Associate(x: seq<nat>, y: seq<nat>, z: seq<nat>)
    ensures x + (y + z) == (x + y) + z
  {
  }

  lemma {:induction false} InkAppend(a: Arena, pool: Bytes, ink: Ink, s: Ids, t: Ids)
    ensures InkAll(a, pool, ink, s + t) == InkAll(a, pool, ink, s) + InkAll(a, pool, ink, t)
  {
    if s == [] {
      assert s + t == t;
    } else {
      InkAppend(a, pool, ink, s[1..], t);
      assert (s + t)[1..] == s[1..] + t;
      Associate(InkOf(a, pool, ink, s[0]), InkAll(a, pool, ink, s[1..]), InkAll(a, pool, ink, t));
    }
  }

  lemma InkGap(a: Arena, pool: Bytes, ink: Ink, s: Ids, m: Ids, t: Ids)
    ensures InkAll(a, pool, ink, m) == [] ==> InkAll(a, pool, ink, s + m + t) == InkAll(a, pool, ink, s + t)
    ensures |m| == 1 ==> InkAll(a, pool, ink, m) == InkOf(a, pool, ink, m[0])
  {
    InkAppend(a, pool, ink, s, m);
    InkAppend(a, pool, ink, s + m, t);
    InkAppend(a, pool, ink, s, t);
  }

  lemma {:induction false} SeenAppend(a: Arena, pool: Bytes, ink: Ink, s: Ids, t: Ids)
    ensures InkSeen(a, pool, ink, s + t)
            == if NoneEmpty(a, s) then InkSeen(a, pool, ink, s) + InkSeen(a, pool, ink, t) else InkSeen(a, pool, ink, s)
  {
    if s == [] {
      assert s + t == t;
    } else {
      assert (s + t)[1..] == s[1..] + t;
      SeenAppend(a, pool, ink, s[1..], t);
      NoneEmptyTail(a, s);
      Associate(InkOf(a, pool, ink, s[0]), InkSeen(a, pool, ink, s[1..]), InkSeen(a, pool, ink, t));
    }
  }

  lemma NoneEmptyTail(a: Arena, s: Ids)
    requires s != []
    ensures NoneEmpty(a, s) <==> !EmptyText(a, s[0]) && NoneEmpty(a, s[1..])
  {
    if !EmptyText(a, s[0]) && NoneEmpty(a, s[1..]) {
      forall k | 0 <= k < |s| ensures !EmptyText(a, s[k]) {
        if k > 0 { assert s[k] == s[1..][k - 1]; }
      }
    }
  }

  /** Without empty texts the test sees all there is. */
  lemma {:induction false} SeenIsAll(a: Arena, pool: Bytes, ink: Ink, order: Ids)
    requires NoneEmpty(a, order)
    ensures InkSeen(a, pool, ink, order) == InkAll(a, pool, ink, order)
  {
    if order != [] { SeenIsAll(a, pool, ink, order[1..]); }
  }

  /** A node that neither shows anything nor ends the test. */
  ghost predicate Quiet(a: Arena, pool: Bytes, ink: Ink, n: nat) {
    InkOf(a, pool, ink, n) == [] && !EmptyText(a, n)
  }

  lemma SeenGap(a: Arena, pool: Bytes, ink: Ink, s: Ids, n: nat, t: Ids)
    requires Quiet(a, pool, ink, n)
    ensures InkSeen(a, pool, ink, s + [n] + t) == InkSeen(a, pool, ink, s + t)
  {
    assert s + [n] + t == s + ([n] + t) && ([n] + t)[1..] == t;
    SeenAppend(a, pool, ink, s, [n] + t);
    SeenAppend(a, pool, ink, s, t);
  }

  /** An element is nothing to see by itself. */
  lemma BranchUnseen(a: Arena, pool: Bytes, ink: Ink, n: nat)
    requires n < |a| && a[n].body.Branch?
    ensures InkSeen(a, pool, ink, [n]) == InkAll(a, pool, ink, [n]) == [] && NoneEmpty(a, [n])
  {
    assert [n][1..] == [];
  }

  /** Old nodes keep their tag and payload, and the pool only grows. */
  ghost predicate Extends(a: Arena, pool: Bytes, b: Arena, pool': Bytes) {
    SamePayloads(a, b) && pool <= pool' && forall i :: 0 <= i < |a| ==> TextIn(a, |pool|, i)
  }

  lemma {:induction false} InkKept(a: Arena, pool: Bytes, b: Arena, pool': Bytes, ink: Ink, order: Ids)
    requires Extends(a, pool, b, pool') && forall k :: 0 <= k < |order| ==> order[k] < |a|
    ensures InkAll(b, pool', ink, order) == InkAll(a, pool, ink, order)
  {
    if order != [] {
      var x := order[0];
      assert Payload(b[x]) == Payload(a[x]) && TextIn(a, |pool|, x);
      if a[x].body.Text? {
        assert b[x].body == a[x].body;
        assert TextOf(b, pool', x) == TextOf(a, pool, x);
      }
      InkKept(a, pool, b, pool', ink, order[1..]);
    }
  }

  lemma {:induction false} SeenKept(a: Arena, pool: Bytes, b: Arena, pool': Bytes, ink: Ink, order: Ids)
    requires Extends(a, pool, b, pool') && forall k :: 0 <= k < |order| ==> order[k] < |a|
    ensures InkSeen(b, pool', ink, order) == InkSeen(a, pool, ink, order)
  {
    if order != [] {
      var x := order[0];
      assert Payload(b[x]) == Payload(a[x]) && TextIn(a, |pool|, x);
      if a[x].body.Text? {
        assert b[x].body == a[x].body;
        assert TextOf(b, pool', x) == TextOf(a, pool, x);
      }
      SeenKept(a, pool, b, pool', ink, order[1..]);
    }
  }

  lemma {:induction false} FirstTextSame(a: Arena, pool: Bytes, c: Arena, pool': Bytes, order: Ids)
    requires Extends(a, pool, c, pool') && forall k :: 0 <= k < |order| ==> order[k] < |a|
    ensures FirstText(c, order) == FirstText(a, order)
  {
    if order != [] {
      assert Payload(c[order[0]]) == Payload(a[order[0]]);
      FirstTextSame(a, pool, c, pool', order[1..]);
    }
  }

  lemma {:induction false} LastTextSame(a: Arena, pool: Bytes, c: Arena, pool': Bytes, order: Ids)
    requires Extends(a, pool, c, pool') && forall k :: 0 <= k < |order| ==> order[k] < |a|
    ensures LastText(c, order) == LastText(a, order)
  {
    if order != [] {
      assert Payload(c[order[|order| - 1]]) == Payload(a[order[|order| - 1]]);
      LastTextSame(a, pool, c, pool', order[..|order| - 1]);
    }
  }

  /** Old nodes keep their texts, so a stretch of them has the spaces it had. */
  lemma SpacesSame(a: Arena, pool: Bytes, c: Arena, pool': Bytes, order: Ids)
    requires Extends(a, pool, c, pool') && forall k :: 0 <= k < |order| ==> order[k] < |a|
    ensures SpaceFirst(c, pool', order) == SpaceFirst(a, pool, order)
    ensures SpaceLast(c, pool', order) == SpaceLast(a, pool, order)
  {
    FirstTextSame(a, pool, c, pool', order);
    LastTextSame(a, pool, c, pool', order);
    forall x | 0 <= x < |a| ensures TextAt(c, pool', x) == TextAt(a, pool, x) {
      assert Payload(c[x]) == Payload(a[x]) && TextIn(a, |pool|, x);
    }
  }

  lemma TreeInRange(f: Forest, r: nat)
    requires Tidy(f) && r < |f.kids|
    ensures forall k :: 0 <= k < |Pre(f, r)| ==> Pre(f, r)[k] < |f.kids|
  {
    forall k | 0 <= k < |Pre(f, r)| ensures Pre(f, r)[k] < |f.kids| {
      assert Pre(f, r)[k] in Pre(f, r);
      InPreUp(f, r, Pre(f, r)[k]);
    }
  }

  /** Node `n` is a text of one space. */
  ghost predicate IsSpaceNode(a: Arena, pool: Bytes, n: nat) {
    n < |a| && a[n].tag == SYS_TEXT && a[n].body.Text? && TextIn(a, |pool|, n) && TextOf(a, pool, n) == [32]
  }

  /** It stays one while old texts stay. */
  lemma SpaceNodeKept(a: Arena, pool: Bytes, b: Arena, pool': Bytes, n: nat)
    requires Extends(a, pool, b, pool') && IsSpaceNode(a, pool, n)
    ensures IsSpaceNode(b, pool', n)
  {
    assert Payload(b[n]) == Payload(a[n]);
    assert TextOf(b, pool', n) == TextOf(a, pool, n);
  }

  /** Cutting off a tree without visible text changes no tree's visible text. */
  lemma DetachInk(a: Arena, pool: Bytes, ink: Ink, f: Forest, c: nat, r: nat)
    requires Tidy(f) && Attached(f, c) && r < |f.kids| && InkAll(a, pool, ink, Pre(f, c)) == []
    ensures Tidy(Detach(f, c)) && InkAll(a, pool, ink, Pre(Detach(f, c), r)) == InkAll(a, pool, ink, Pre(f, r))
  {
    DetachTidy(f, c);
    if f.par[c].value in Pre(f, r) {
      var s, t := DetachDocument(f, c, r);
      InkGap(a, pool, ink, s, Pre(f, c), t);
    } else {
      DetachElsewhere(f, c, r);
    }
  }

  /** Cutting off a tree takes its visible text out of the trees that held it. */
  lemma DetachTakes(a: Arena, pool: Bytes, ink: Ink, f: Forest, c: nat, r: nat)
    requires Tidy(f) && Attached(f, c) && r < |f.kids|
    ensures Tidy(Detach(f, c))
    ensures var gone := if f.par[c].value in Pre(f, r) then InkAll(a, pool, ink, Pre(f, c)) else [];
            |InkAll(a, pool, ink, Pre(f, r))| == |InkAll(a, pool, ink, Pre(Detach(f, c), r))| + |gone|
  {
    DetachTidy(f, c);
    if f.par[c].value in Pre(f, r) {
      var s, t := DetachDocument(f, c, r);
      InkAppend(a, pool, ink, s, Pre(f, c));
      InkAppend(a, pool, ink, s + Pre(f, c), t);
      InkAppend(a, pool, ink, s, t);
    } else {
      DetachElsewhere(f, c, r);
    }
  }

  lemma DetachElsewhere(f: Forest, c: nat, r: nat)
    requires Tidy(f) && Attached(f, c) && r < |f.kids| && f.par[c].value !in Pre(f, r)
    ensures Tidy(Detach(f, c)) && Pre(Detach(f, c), r) == Pre(f, r)
  {
    DetachTidy(f, c);
    TreeInRange(f, r);
    PreAgree(f, Detach(f, c), r);
  }

  lemma AddLeafElsewhere(f: Forest, p: nat, k: nat, r: nat)
    requires Tidy(f) && p < |f.kids| && k <= |f.kids[p]| && r < |f.kids| && p !in Pre(f, r)
    ensures Tidy(AddLeaf(f, p, k)) && Pre(AddLeaf(f, p, k), r) == Pre(f, r)
  {
    AddLeafTidy(f, p, k);
    TreeInRange(f, r);
    PreAgree(f, AddLeaf(f, p, k), r);
  }

  /** A new leaf that is quiet changes neither what a tree shows nor what the test sees of it. */
  lemma AddLeafInk(a: Arena, pool: Bytes, ink: Ink, f: Forest, p: nat, k: nat, r: nat)
    requires Tidy(f) && p < |f.kids| && k <= |f.kids[p]| && r < |f.kids| && Quiet(a, pool, ink, |f.kids|)
    ensures Tidy(AddLeaf(f, p, k)) && InkAll(a, pool, ink, Pre(AddLeaf(f, p, k), r)) == InkAll(a, pool, ink, Pre(f, r))
    ensures InkSeen(a, pool, ink, Pre(AddLeaf(f, p, k), r)) == InkSeen(a, pool, ink, Pre(f, r))
  {
    AddLeafTidy(f, p, k);
    if p in Pre(f, r) {
      var a0, s, t := AddLeafDocument(f, p, k, r);
      InkGap(a, pool, ink, s, [|f.kids|], t);
      SeenGap(a, pool, ink, s, |f.kids|, t);
    } else {
      AddLeafElsewhere(f, p, k, r);
    }
  }

  /** Every old tree shows what it shows in `g` with the texts of `a`. */
  ghost predicate InkAsIn(a: Arena, pool: Bytes, g: Forest, c: Arena, h: Forest, pool': Bytes, ink: Ink)
    requires Tidy(g) && Tidy(h) && |g.kids| <= |h.kids|
  {
    forall t :: 0 <= t < |g.kids| ==> InkAll(c, pool', ink, Pre(h, t)) == InkAll(a, pool, ink, Pre(g, t))
  }

  /** The test sees of every old tree what it sees of it in `g` with the texts of `a`. */
  ghost predicate SeenAsIn(a: Arena, pool: Bytes, g: Forest, c: Arena, h: Forest, pool': Bytes, ink: Ink)
    requires Tidy(g) && Tidy(h) && |g.kids| <= |h.kids|
  {
    forall t :: 0 <= t < |g.kids| ==> InkSeen(c, pool', ink, Pre(h, t)) == InkSeen(a, pool, ink, Pre(g, t))
  }

  /** No old tree shows more than it does in `g`. */
  ghost predicate InkLess(a: Arena, pool: Bytes, g: Forest, c: Arena, h: Forest, pool': Bytes, ink: Ink)
    requires Tidy(g) && Tidy(h) && |g.kids| <= |h.kids|
  {
    forall t :: 0 <= t < |g.kids| ==> |InkAll(c, pool', ink, Pre(h, t))| <= |InkAll(a, pool, ink, Pre(g, t))|
  }
}
