/**
 Whether a place in a document has a space beside it: the last text node before it and the first one
 from it on, one character of each.
 */
module Spaces {
  import opened Wrappers
  import opened LittleEndian
  import opened NodeLayout
  import opened Forest
  import opened ForestEdits
  import opened Links
  import opened Nodes
  import opened Dom
  import opened Walk
  import opened RevWalk

  const SPACE: Bytes := [32]

  // ---- one character of a stretch of nodes ----

  predicate IsTextNode(a: Arena, x: nat) {
    x < |a| && a[x].tag == SYS_TEXT
  }

  ghost function TextAt(a: Arena, pool: Bytes, x: nat): Bytes {
    if x < |a| && a[x].body.Text? && TextIn(a, |pool|, x) then TextOf(a, pool, x) else []
  }

  ghost function FirstText(a: Arena, order: Ids): (x: Option<nat>)
    ensures x.Some? ==> IsTextNode(a, x.value)
  {
    if order == [] then None else if IsTextNode(a, order[0]) then Some(order[0]) else FirstText(a, order[1..])
  }

  ghost function LastText(a: Arena, order: Ids): (x: Option<nat>)
    ensures x.Some? ==> IsTextNode(a, x.value)
  {
    if order == [] then None
    else if IsTextNode(a, order[|order| - 1]) then Some(order[|order| - 1])
    else LastText(a, order[..|order| - 1])
  }

  /** The first text node of the stretch starts with a space; one without text does not. */
  ghost predicate SpaceFirst(a: Arena, pool: Bytes, order: Ids) {
    FirstText(a, order).Some? && SPACE <= TextAt(a, pool, FirstText(a, order).value)
  }

  /** The last text node of the stretch ends with a space. */
  ghost predicate SpaceLast(a: Arena, pool: Bytes, order: Ids) {
    LastText(a, order).Some? && EndsInSpace(TextAt(a, pool, LastText(a, order).value))
  }

  /** The text node at place `k` is the only one from there on. */
  ghost predicate LastTextAt(a: Arena, order: Ids, k: nat) {
    && k < |order| && order[k] < |a| && a[order[k]].tag == SYS_TEXT
    && forall j :: k < j < |order| ==> !IsTextNode(a, order[j])
  }

  ghost predicate FirstTextAt(a: Arena, order: Ids, k: nat) {
    && k < |order| && order[k] < |a| && a[order[k]].tag == SYS_TEXT
    && forall j :: 0 <= j < k ==> !IsTextNode(a, order[j])
  }

  lemma {:induction false} SpaceLastIs(a: Arena, pool: Bytes, order: Ids)
    ensures SpaceLast(a, pool, order)
            <==> exists k: nat :: LastTextAt(a, order, k) && var text := TextAt(a, pool, order[k]);
              text != [] && text[|text| - 1] == 32
  {
    var k := LastIs(a, order);
    forall j: nat | LastTextAt(a, order, j) ensures j == k && LastText(a, order).Some? {
      assert k < |order| ==> LastTextAt(a, order, k);
      assert IsTextNode(a, order[j]);
    }
  }

  lemma {:induction false} LastIs(a: Arena, order: Ids) returns (k: nat)
    ensures if LastText(a, order).Some? then LastTextAt(a, order, k) && LastText(a, order) == Some(order[k])
            else forall j :: 0 <= j < |order| ==> !IsTextNode(a, order[j])
  {
    k := 0;
    if order != [] {
      k := |order| - 1;
      if !IsTextNode(a, order[k]) { k := LastIs(a, order[..k]); }
    }
  }

  lemma {:induction false} SpaceFirstIs(a: Arena, pool: Bytes, order: Ids)
    ensures SpaceFirst(a, pool, order)
            <==> exists k: nat :: FirstTextAt(a, order, k) && var text := TextAt(a, pool, order[k]);
              text != [] && text[0] == 32
  {
    var k := FirstIs(a, order);
    forall j: nat | FirstTextAt(a, order, j) ensures j == k && FirstText(a, order).Some? {
      assert k < |order| ==> FirstTextAt(a, order, k);
      assert IsTextNode(a, order[j]);
    }
  }

  lemma {:induction false} FirstIs(a: Arena, order: Ids) returns (k: nat)
    ensures if FirstText(a, order).Some? then FirstTextAt(a, order, k) && FirstText(a, order) == Some(order[k])
            else forall j :: 0 <= j < |order| ==> !IsTextNode(a, order[j])
  {
    k := 0;
    if order != [] && !IsTextNode(a, order[0]) {
      k := FirstIs(a, order[1..]);
      k := k + 1;
    }
  }

  predicate EndsInSpace(text: Bytes) {
    text != [] && text[|text| - 1] == 32
  }

  /** A stretch without text nodes has no space at either end. */
  lemma {:induction false} NoTextNoSpace(a: Arena, pool: Bytes, order: Ids)
    requires forall k :: 0 <= k < |order| ==> !IsTextNode(a, order[k])
    ensures !SpaceFirst(a, pool, order) && !SpaceLast(a, pool, order)
  {
    NoFirst(a, order);
    NoLast(a, order);
  }

  lemma {:induction false} NoFirst(a: Arena, order: Ids)
    requires forall k :: 0 <= k < |order| ==> !IsTextNode(a, order[k])
    ensures FirstText(a, order) == None
  {
    if order != [] { NoFirst(a, order[1..]); }
  }

  lemma {:induction false} NoLast(a: Arena, order: Ids)
    requires forall k :: 0 <= k < |order| ==> !IsTextNode(a, order[k])
    ensures LastText(a, order) == None
  {
    if order != [] { NoLast(a, order[..|order| - 1]); }
  }

  // ---- a place in the document ----

  /** What comes before `n` in its tree, in document order. */
  ghost function Preceding(f: Forest, n: nat): Ids
    requires Tidy(f) && n < |f.kids|
  {
    var order := Pre(f, TopOf(f, n));
    order[..IndexOf(order, n)]
  }

  /** What comes after `n` in its tree: first what is below it. */
  ghost function Following(f: Forest, n: nat): Ids
    requires Tidy(f) && n < |f.kids|
  {
    var order := Pre(f, TopOf(f, n));
    order[IndexOf(order, n) + 1..]
  }

  /** The two stretches around `n`, wherever the tree's order is written with `n` in the middle. */
  lemma PlaceIs(f: Forest, n: nat, before: Ids, after: Ids)
    requires Tidy(f) && n < |f.kids| && Pre(f, TopOf(f, n)) == before + [n] + after
    ensures Preceding(f, n) == before && Following(f, n) == after
  {
    PreNoDup(f, TopOf(f, n));
    var order := Pre(f, TopOf(f, n));
    assert order[|before|] == n && order[IndexOf(order, n)] == n;
  }

  lemma PathPlace(f: Forest, stack: Ids)
    requires OnPath(f, stack) && stack[0] == TopOf(f, Top(stack))
    ensures Preceding(f, Top(stack)) == Before(f, stack) && Following(f, Top(stack)) == Ahead(f, stack)
  {
    AroundTop(f, stack);
    var n := Top(stack);
    Rejoin3(Before(f, stack), [n], PreAll(f, n, f.kids[n]), Beyond(f, stack));
    PlaceIs(f, n, Before(f, stack), Ahead(f, stack));
  }

  lemma Rejoin3(a: Ids, n: Ids, m: Ids, b: Ids)
    ensures a + (n + m) + b == a + n + (m + b)
  {
  }

  // ---- the two tests ----

  method TextBytes(dom: DomInner, x: nat) returns (text: Bytes)
    requires dom.Valid() && x < |dom.nodes.recs| && dom.nodes.recs[x].tag == SYS_TEXT
    ensures text == TextAt(dom.nodes.recs, dom.strings, x)
  {
    assert RecSpelled(dom.nodes.bytes, dom.nodes.width, dom.nodes.recs, x);
    assert TextIn(dom.nodes.recs, |dom.strings|, x);
    var start, end := dom.nodes.TextRange(x);
    text := dom.strings[start..end];
  }

  /** Walks on from `n`, leaving out `n` itself, to the first text node and looks at its first character. */
  method StartsWithSpace(dom: DomInner, n: nat) returns (b: bool)
    requires dom.Valid() && n < |dom.nodes.recs| && Grounded(dom.nodes.doc, n)
    ensures b <==> SpaceFirst(dom.nodes.recs, dom.strings, Following(dom.nodes.doc, n))
  {
    ghost var a, f := dom.nodes.recs, dom.nodes.doc;
    var stack := PathTo(dom.nodes, n);
    PathPlace(f, stack);
    while true
      invariant OnPath(f, stack) && FirstText(a, Following(f, n)) == FirstText(a, Ahead(f, stack))
      decreases |Ahead(f, stack)|
    {
      var next, rest := FindNext(dom.nodes, stack);
      if next.None? {
        return false;
      }
      assert ([next.value] + Ahead(f, rest))[1..] == Ahead(f, rest);
      if dom.nodes.TagByte(next.value) == SYS_TEXT {
        var text := TextBytes(dom, next.value);
        return text != [] && text[0] == 32;
      }
      stack := rest;
    }
  }

  /** Walks back from `n` to the last text node before it and looks at its last character. */
  method EndsWithSpace(dom: DomInner, n: nat) returns (b: bool)
    requires dom.Valid() && n < |dom.nodes.recs| && Grounded(dom.nodes.doc, n)
    ensures b <==> SpaceLast(dom.nodes.recs, dom.strings, Preceding(dom.nodes.doc, n))
  {
    ghost var a, f := dom.nodes.recs, dom.nodes.doc;
    var stack := PathTo(dom.nodes, n);
    var op := ExcludeStart;
    PathPlace(f, stack);
    ghost var root := stack[0];
    RootIsNoText(dom.nodes, stack);
    while true
      invariant OnPath(f, stack) && stack[0] == root && root < |f.kids|
      invariant IsTextNode(a, root) ==> Remaining(f, stack, op) == []
      invariant LastText(a, Preceding(f, n)) == LastText(a, Remaining(f, stack, op))
      decreases |Remaining(f, stack, op)|
    {
      var prev, rest, next := FindPrev(dom.nodes, stack, op);
      if prev.None? {
        LastStep(a, [], root);
        return false;
      }
      LastStep(a, Remaining(f, rest, next), prev.value);
      if dom.nodes.TagByte(prev.value) == SYS_TEXT {
        var text := TextBytes(dom, prev.value);
        return EndsInSpace(text);
      }
      stack, op := rest, next;
    }
  }

  lemma LastStep(a: Arena, order: Ids, x: nat)
    ensures LastText(a, order + [x]) == if IsTextNode(a, x) then Some(x) else LastText(a, order)
    ensures [] + [x] == [x]
  {
    assert (order + [x])[..|order|] == order;
  }

  /** Whatever has something below it is no text node. */
  lemma RootIsNoText(nodes: Nodes, stack: Ids)
    requires nodes.Valid() && OnPath(nodes.doc, stack) && stack[0] < |nodes.recs|
    ensures IsTextNode(nodes.recs, stack[0]) ==> Before(nodes.doc, stack) == []
  {
    if |stack| > 1 {
      assert Hangs(nodes.doc, stack[0], stack[1]);
      EndChildren(nodes.recs, nodes.doc, stack[0]);
      assert RecSpelled(nodes.bytes, nodes.width, nodes.recs, stack[0]);
    }
  }
}
