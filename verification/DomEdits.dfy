/**
 Removing and replacing elements of a document: the tree edit itself, then the tidying up around
 the places it left.
 */
module DomEdits {
  import opened Wrappers
  import opened LittleEndian
  import opened NodeLayout
  import opened Forest
  import opened ForestEdits
  import opened Links
  import opened Nodes
  import opened TextBlocks
  import opened Dom
  import opened Tags
  import opened Climbing
  import opened StandIns
  import opened Pruning
  import opened Gaps
  import opened ReadAround
  import opened Replacing
  import opened RevWalk
  import opened Spaces
  import opened VisibleText

  ghost function Here(dom: DomInner): Page
    reads dom, dom.nodes
  {
    Page(dom.nodes.recs, dom.nodes.doc, dom.strings)
  }

  // ---- removal ----

  /** Nothing that taking `index` away empties has visible text left, told from the document before. */
  ghost predicate HarmlessWithout(a: Arena, f: Forest, pool: Bytes, ink: Ink, index: nat)
    requires |a| == |f.kids| && Tidy(f) && Attached(f, index)
  {
    DetachTidy(f, index);
    forall v :: 0 <= v < |f.par| && Attached(f, v) && Goes(a, f, pool, ink, index, v) ==>
      InkAll(a, pool, ink, Pre(Detach(f, index), v)) == []
  }

  /** `index` is gone, and of all others exactly those that taking it away empties. */
  ghost predicate GoneWith(a: Arena, f: Forest, pool: Bytes, ink: Ink, h: Forest, index: nat)
    requires |a| == |f.kids| && Tidy(f)
  {
    |f.par| <= |h.par| && forall v :: 0 <= v < |f.par| && Attached(f, v) ==>
        (h.par[v] == None <==> v == index || Goes(a, f, pool, ink, index, v))
  }

  /**
   Removes an element and prunes upwards from its parent. What goes with it is told from the document
   before; the visible text afterwards is that of the document without the removed tree exactly if
   nothing of what goes has any; and the cursor returned is in the document.
   */
  method RemoveElement(dom: DomInner, ink: Ink, index: nat) returns (cursor: nat, ghost kept: nat)
    requires dom.Valid() && BlankSpace(ink) && 0 < index < |dom.nodes.recs| && index in Pre(dom.nodes.doc, 0)
    requires |dom.nodes.recs| + Depth(dom.nodes.doc, 0, index) <= Sentinel(dom.nodes.width)
             && |dom.strings| + Depth(dom.nodes.doc, 0, index) < U32
    modifies dom`strings, dom.nodes`bytes, dom.nodes`recs, dom.nodes`doc
    ensures dom.Valid() && cursor in Pre(dom.nodes.doc, 0) && index !in Pre(dom.nodes.doc, 0)
    ensures Extends(old(dom.nodes.recs), old(dom.strings), dom.nodes.recs, dom.strings)
    ensures Attached(old(dom.nodes.doc), index) && Tidy(Detach(old(dom.nodes.doc), index))
            && |old(dom.nodes.doc).kids| <= |dom.nodes.doc.kids|
    ensures GoneWith(old(dom.nodes.recs), old(dom.nodes.doc), old(dom.strings), ink, dom.nodes.doc, index)
    ensures InkAsIn(old(dom.nodes.recs), old(dom.strings), Detach(old(dom.nodes.doc), index), dom.nodes.recs,
            dom.nodes.doc, dom.strings, ink)
            <==> HarmlessWithout(old(dom.nodes.recs), old(dom.nodes.doc), old(dom.strings), ink, index)
    ensures OthersStay(old(dom.nodes.doc), dom.nodes.doc, index)
    ensures KidsAfter(old(dom.nodes.recs), old(dom.nodes.doc), dom.nodes.doc)
    ensures SpacesPut(old(dom.nodes.recs), old(dom.nodes.doc), old(dom.strings), dom.nodes.recs, dom.nodes.doc,
            dom.strings)
    ensures SpacedOut(old(dom.nodes.recs), old(dom.nodes.doc), dom.nodes.recs, dom.nodes.doc, dom.strings, 0)
    ensures CursorBeside(old(dom.nodes.doc), dom.nodes.doc, kept, cursor) && kept in Pre(dom.nodes.doc, 0)
  {
    ghost var a, f, pool := dom.nodes.recs, dom.nodes.doc, dom.strings;
    InPreUp(f, 0, index);
    RelativesOutside(f, a, 0, index);
    var parent, prev, next := TakeOne(dom, ink, index, 0);
    ghost var c, h, pool' := dom.nodes.recs, dom.nodes.doc, dom.strings;
    assert Payload(c[parent]) == Payload(a[parent]);
    cursor := RepositionCursor(prev, next, parent);
    kept, cursor := Prune(dom, ink, cursor, parent, 0);
    RemovalDone(a, f, pool, c, h, pool', Here(dom), ink, index, kept, cursor);
  }

  /** What the removal and the climb from its parent come to, told from the document before. */
  lemma RemovalDone(a: Arena, f: Forest, pool: Bytes, c: Arena, h: Forest, pool': Bytes, last: Page, ink: Ink,
      index: nat, kept: nat, cursor: nat)
    requires Linked(a, f) && Linked(c, h) && Whole(last) && 0 < index < |a| && f.par[0] == None && index in Pre(f, 0)
    requires Stepped(a, f, pool, c, h, pool', ink, 0, index) && ListsKept(f, h, index)
    requires TakenOut(a, f, pool, c, h, pool', index) && f.par[index].value < |a| && a[f.par[index].value].body.Branch?
    requires Pruned(c, h, pool', last.recs, last.doc, last.pool, ink, 0, f.par[index].value, kept)
    requires RemovedAre(c, h, pool', ink, last.doc, f.par[index].value) && KidsAfter(c, h, last.doc)
    requires SpacesPut(c, h, pool', last.recs, last.doc, last.pool)
             && SpacedOut(c, h, last.recs, last.doc, last.pool, 0)
    requires !IsBlock(a[index].tag) ==> h == Detach(f, index)
    requires kept != f.par[index].value ==> last.doc.par[f.par[index].value] == None
    requires kept == f.par[index].value ==> last == Page(c, h, pool')
    requires Flanked(a, f, index) ==> NextOf(f, index) < |h.kids| && SpaceBeside(c, h, pool', NextOf(f, index))
    requires if kept == f.par[index].value then
               cursor == RepositionCursor(a[index].prev, a[index].next, f.par[index].value)
             else CursorBeside(h, last.doc, kept, cursor)
    ensures index !in Pre(last.doc, 0) && |f.kids| <= |last.doc.kids| && Tidy(Detach(f, index))
    ensures Extends(a, pool, last.recs, last.pool)
    ensures GoneWith(a, f, pool, ink, last.doc, index) && OthersStay(f, last.doc, index) && KidsAfter(a, f, last.doc)
    ensures InkAsIn(a, pool, Detach(f, index), last.recs, last.doc, last.pool, ink)
            <==> HarmlessWithout(a, f, pool, ink, index)
    ensures SpacesPut(a, f, pool, last.recs, last.doc, last.pool)
            && SpacedOut(a, f, last.recs, last.doc, last.pool, 0) && CursorBeside(f, last.doc, kept, cursor)
  {
    LooseIsOutside(last.doc, index);
    ExtendsOn(a, pool, c, pool', last.recs, last.pool);
    OthersStayOn(f, h, last.doc, 0, index);
    GoneIs(a, f, pool, c, h, pool', last.doc, ink, index);
    RemovedInk(a, f, pool, c, h, pool', last.recs, last.doc, last.pool, ink, index, kept);
    KidsUp(a, f, pool, c, h, pool', last.doc, ink, 0, index);
    RemovedSpaces(a, f, pool, c, h, pool', last.recs, last.doc, last.pool, ink, index, kept, cursor);
  }

  /** Where the spaces and the cursor are after a removal. */
  lemma RemovedSpaces(a: Arena, f: Forest, pool: Bytes, b: Arena, g: Forest, pool': Bytes, c: Arena, h: Forest,
      pool'': Bytes, ink: Ink, index: nat, kept: nat, cursor: nat)
    requires Onward(a, f, pool, b, g, pool', c, h, pool'', ink, 0, index)
    requires SpacesPut(b, g, pool', c, h, pool'') && SpacedOut(b, g, c, h, pool'', 0)
    requires kept != f.par[index].value ==> f.par[index].value < |h.par| && h.par[f.par[index].value] == None
                                            && f.par[index].value != 0
    requires kept == f.par[index].value ==> c == b && h == g && pool'' == pool'
    requires Flanked(a, f, index) ==> NextOf(f, index) < |g.kids| && SpaceBeside(b, g, pool', NextOf(f, index))
    requires if kept == f.par[index].value then
               Some(cursor) == if a[index].prev.Some? then a[index].prev
                               else if a[index].next.Some? then a[index].next else f.par[index]
             else CursorBeside(g, h, kept, cursor)
    ensures SpacesPut(a, f, pool, c, h, pool'') && SpacedOut(a, f, c, h, pool'', 0) && CursorBeside(f, h, kept, cursor)
  {
    ClimbStopped(g, h, 0, f.par[index].value, kept);
    PutsUp(a, f, pool, b, g, pool', c, h, pool'', ink, 0, index);
    SpacedUp(a, f, pool, b, g, pool', c, h, pool'', ink, 0, index);
    if kept == f.par[index].value {
      CursorHere(a, f, h, index, cursor);
    } else {
      CursorUp(a, f, pool, b, g, pool', h, ink, 0, index, kept, cursor);
    }
  }

  /** What pruning takes after a removal, told from the document before it. */
  lemma GoneIs(a: Arena, f: Forest, pool: Bytes, c: Arena, h: Forest, pool': Bytes, k: Forest, ink: Ink, index: nat)
    requires Linked(a, f) && Linked(c, h) && 0 < |a| && f.par[0] == None && index < |a| && index in Pre(f, 0)
    requires Stepped(a, f, pool, c, h, pool', ink, 0, index) && ListsKept(f, h, index)
    requires f.par[index].value < |a| && a[f.par[index].value].body.Branch?
    requires RemovedAre(c, h, pool', ink, k, f.par[index].value) && LooseStay(h, k)
    ensures GoneWith(a, f, pool, ink, k, index)
  {
    forall v | 0 <= v < |f.par| && Attached(f, v)
        ensures k.par[v] == None <==> v == index || Goes(a, f, pool, ink, index, v) {
      if v != index {
        assert Stays(f, h, v);
        ClimbsOn(a, f, pool, c, h, pool', ink, 0, index, v);
      }
    }
  }

  /** The visible text after a removal and the pruning that follows it. */
  lemma RemovedInk(a: Arena, f: Forest, pool: Bytes, c: Arena, h: Forest, pool': Bytes, e: Arena, k: Forest,
      pool'': Bytes, ink: Ink, index: nat, kept: nat)
    requires Linked(a, f) && Linked(c, h) && Linked(e, k) && 0 < |a| && index < |a| && index in Pre(f, 0)
    requires Stepped(a, f, pool, c, h, pool', ink, 0, index) && f.par[index].value < |a|
    requires Pruned(c, h, pool', e, k, pool'', ink, 0, f.par[index].value, kept)
    requires GoneWith(a, f, pool, ink, k, index)
    ensures Tidy(Detach(f, index))
    ensures InkAsIn(a, pool, Detach(f, index), e, k, pool'', ink) <==> HarmlessWithout(a, f, pool, ink, index)
  {
    DetachTidy(f, index);
    SameOnward(a, Detach(f, index), pool, c, h, pool', e, k, pool'', ink);
    if HarmlessWithout(a, f, pool, ink, index) {
      forall v | 0 <= v < |h.par| && v < |k.par| && Attached(h, v) && k.par[v] == None
          ensures InkAll(c, pool', ink, Pre(h, v)) == [] {
        assert v < |f.kids| ==> Attached(f, v);
      }
    }
    if BlankGone(c, h, pool', ink, k) {
      forall v | 0 <= v < |f.par| && Attached(f, v) && Goes(a, f, pool, ink, index, v)
          ensures InkAll(a, pool, ink, Pre(Detach(f, index), v)) == [] {
        GoesAbove(a, f, pool, ink, index, v);
        assert Stays(f, h, v);
      }
    }
  }

  /** One level up: without `index`, a node that holds nothing else to be seen shows nothing. */
  lemma HollowBlankWithout(a: Arena, f: Forest, pool: Bytes, ink: Ink, index: nat, w: nat, c: nat)
    requires Linked(a, f) && FullTexts(a) && Attached(f, index) && Attached(f, c) && f.par[c] == Some(w) && w < |a|
             && index < |a| && c < |a| && index in Pre(f, c)
    requires Tidy(Detach(f, index)) && (c != index ==> InkAll(a, pool, ink, Pre(Detach(f, index), c)) == [])
    requires HollowUp(a, f, pool, ink, w, c)
    ensures InkAll(a, pool, ink, Pre(Detach(f, index), w)) == []
  {
    var d := Detach(f, index);
    if a[w].tag == BODY || IsBlock(a[w].tag) {
      DetachTidy(f, c);
      AllSeen(a, Detach(f, c), pool, ink, w);
      if c != index {
        CutTwice(f, index, c, w);
        DetachInk(a, pool, ink, d, c, w);
      }
    } else {
      EndChildren(a, f, w);
      OnlyChildWithout(f, index, w, c);
      BranchUnseen(a, pool, ink, w);
      if c != index { InkAppend(a, pool, ink, [w], Pre(d, c)); }
    }
  }

  /** Below the only child, the tree without `index` is all there is. */
  lemma OnlyChildWithout(f: Forest, index: nat, w: nat, c: nat)
    requires Tidy(f) && Attached(f, index) && Attached(f, c) && f.par[c] == Some(w) && w < |f.kids| && index < |f.kids|
             && c < |f.kids| && index in Pre(f, c) && f.kids[w] == [c] && Tidy(Detach(f, index))
    ensures Pre(Detach(f, index), w) == [w] + if c == index then [] else Pre(Detach(f, index), c)
  {
    var d := Detach(f, index);
    if c == index {
      assert d.kids[w] == [];
      assert Pre(d, w) == [w] + PreAll(d, w, []);
    } else {
      ParentInside(f, c, index);
      ParentNotBelow(f, c);
      assert d.kids[w] == [c];
      PreAllOne(d, w, c) by { assert ChildOk(d, w, d.kids[w][0]); }
    }
  }

  lemma ParentInside(f: Forest, c: nat, n: nat)
    requires Tidy(f) && c < |f.kids| && n in Pre(f, c) && n != c
    ensures n < |f.par| && f.par[n].Some? && f.par[n].value in Pre(f, c)
  {
    InPreUp(f, c, n);
  }

  /** Above `c`, cutting off `index` below it and then `c` is cutting off `c`. */
  lemma CutTwice(f: Forest, index: nat, c: nat, w: nat)
    requires Tidy(f) && Attached(f, index) && Attached(f, c) && f.par[c] == Some(w) && w < |f.kids|
             && index < |f.kids| && c < |f.kids| && index in Pre(f, c) && index != c
    ensures Tidy(Detach(f, index)) && Attached(Detach(f, index), c) && Detach(f, index).par[c] == Some(w)
    ensures Tidy(Detach(Detach(f, index), c)) && Tidy(Detach(f, c))
    ensures Pre(Detach(Detach(f, index), c), w) == Pre(Detach(f, c), w)
  {
    DetachTidy(f, index);
    DetachLeavesAttached(f, c, index);
    ParentInside(f, c, index);
    TreeInRange(f, w);
    ParentNotBelow(f, c);
    InPreDown(f, w, w, c) by { assert w in Pre(f, w); }
    CutAgrees(f, Detach(f, index), c, w);
  }

  lemma {:induction false} GoesBlankWithout(a: Arena, f: Forest, pool: Bytes, ink: Ink, index: nat, c: nat, v: nat)
    requires Linked(a, f) && FullTexts(a) && Attached(f, index) && index < |a| && c < |a| && index in Pre(f, c)
             && v < |a|
    requires Tidy(Detach(f, index)) && (c != index ==> InkAll(a, pool, ink, Pre(Detach(f, index), c)) == [])
    requires Goes(a, f, pool, ink, c, v)
    ensures InkAll(a, pool, ink, Pre(Detach(f, index), v)) == []
    decreases f.rank[c]
  {
    var w := f.par[c].value;
    assert ChildOk(f, w, f.kids[w][IndexOf(f.kids[w], c)]);
    HollowBlankWithout(a, f, pool, ink, index, w, c);
    if w != v {
      assert w in Pre(f, w);
      InPreDown(f, w, w, c);
      PreTransitive(f, w, c, index);
      InPreUp(f, w, index);
      ParentNotBelow(f, c);
      GoesBlankWithout(a, f, pool, ink, index, w, v);
    }
  }

  /** Where no text node is empty, a removal takes no visible text but that of the removed tree. */
  lemma FullIsHarmlessWithout(a: Arena, f: Forest, pool: Bytes, ink: Ink, index: nat)
    requires Linked(a, f) && FullTexts(a) && Attached(f, index) && index < |a|
    ensures HarmlessWithout(a, f, pool, ink, index)
  {
    DetachTidy(f, index);
    assert index in Pre(f, index);
    forall v | 0 <= v < |f.par| && Attached(f, v) && Goes(a, f, pool, ink, index, v)
        ensures InkAll(a, pool, ink, Pre(Detach(f, index), v)) == [] {
      GoesBlankWithout(a, f, pool, ink, index, index, v);
    }
  }

  /** Taking a node out, then pruning from its parent up, moves nothing that does not hold the node. */
  lemma OthersStayOn(f: Forest, g: Forest, h: Forest, root: nat, index: nat)
    requires Tidy(f) && Tidy(g) && Tidy(h) && root < |f.kids| <= |g.kids| && index < |f.kids| && Attached(f, index)
    requires PlacesKept(f, g, root, index) && OthersStay(g, h, f.par[index].value)
    ensures OthersStay(f, h, index)
  {
    forall n | 0 <= n < |f.kids| && index !in Pre(f, n) ensures Stays(f, h, n) {
      assert n != index by { assert index in Pre(f, index); }
      if f.par[index].value in Pre(g, n) { InPreDown(f, n, f.par[index].value, index); }
      assert Stays(f, g, n) && Stays(g, h, n);
    }
  }

  lemma LooseIsOutside(g: Forest, index: nat)
    requires Tidy(g) && 0 < |g.kids| && 0 < index < |g.par| && g.par[index] == None
    ensures index !in Pre(g, 0)
  {
    if index in Pre(g, 0) { InPreUp(g, 0, index); }
  }

  // ---- replacement ----

  /**
   Replacing `i` by `x` stops the program: an inline `x` takes a block's place behind an inline
   sibling, taking `x` away empties that sibling, and the text has no space where the two stood.
   */
  ghost predicate Stops(a: Arena, f: Forest, pool: Bytes, ink: Ink, i: nat, x: nat)
    requires Linked(a, f)
  {
    && i < |a| && x < |a| && Attached(f, i) && Attached(f, x) && i !in Pre(f, x) && LinkOk(a[i].prev, |a|)
    && IsBlock(a[i].tag) && Asks(a, a[i].prev, Some(x)) && Goes(a, f, pool, ink, x, a[i].prev.value)
    && !SpaceKept(a, f, pool, ink, i, x)
  }

  /**
   Replaces `i` by the live node `x`, prunes what `x` left empty, and for an inline `x` in a
   block's place considers a space on either side. `ok` is false when the program would stop: it
   looks for `i`'s previous sibling again, which is gone by then exactly if taking `x` away empties it.
   The visible text is that of the bare replacement exactly if nothing pruning takes of that has any.
   */
  method ReplaceElement(dom: DomInner, ink: Ink, i: nat, x: nat)
      returns (ok: bool, ghost mid: Page, ghost first: Page)
    requires dom.Valid() && BlankSpace(ink) && i < |dom.nodes.recs| && 0 < x < |dom.nodes.recs|
    requires i in Pre(dom.nodes.doc, 0) && x in Pre(dom.nodes.doc, 0) && i !in Pre(dom.nodes.doc, x) && i != 0
    requires |dom.nodes.recs| + Depth(dom.nodes.doc, 0, x) + 1 <= Sentinel(dom.nodes.width)
             && |dom.strings| + Depth(dom.nodes.doc, 0, x) + 1 < U32
    modifies dom`strings, dom.nodes`bytes, dom.nodes`recs, dom.nodes`doc
    ensures dom.Valid() && Attached(old(dom.nodes.doc), i) && Attached(old(dom.nodes.doc), x)
    ensures Tidy(Replace(old(dom.nodes.doc), i, x)) && |Replace(old(dom.nodes.doc), i, x).kids| <= |dom.nodes.doc.kids|
    ensures InkAsIn(old(dom.nodes.recs), old(dom.strings), Replace(old(dom.nodes.doc), i, x), dom.nodes.recs,
            dom.nodes.doc, dom.strings, ink)
            <==> Harmless(old(dom.nodes.recs), Replace(old(dom.nodes.doc), i, x), old(dom.strings), ink,
                          old(dom.nodes.doc).par[x].value)
    ensures PlacesAfter(old(dom.nodes.doc), dom.nodes.doc, i, x)
    ensures Extends(old(dom.nodes.recs), old(dom.strings), dom.nodes.recs, dom.strings)
    ensures !ok <==> Stops(old(dom.nodes.recs), old(dom.nodes.doc), old(dom.strings), ink, i, x)
    ensures Whole(mid) && Whole(first) && |old(dom.nodes.doc).kids| <= |dom.nodes.doc.kids| <= |dom.nodes.doc.par|
            && LinkOk(old(dom.nodes.recs)[i].prev, |old(dom.nodes.recs)|)
            && LinkOk(old(dom.nodes.recs)[i].next, |old(dom.nodes.recs)|)
            && |Replace(old(dom.nodes.doc), i, x).kids| == |old(dom.nodes.recs)|
            && old(dom.nodes.doc).par[x].value < |old(dom.nodes.recs)|
    ensures var f := old(dom.nodes.doc);
            var g, q := Replace(f, i, x), f.par[x].value;
            TidiedUp(old(dom.nodes.recs), g, old(dom.strings), ink, mid, Home(g, q, i), q)
    ensures var a := old(dom.nodes.recs);
            if ok && IsBlock(a[i].tag) && IsInline(a[x].tag) then
              && MaybeSpaced(mid, first, a[i].prev, Some(x)) && MaybeSpaced(first, Here(dom), Some(x), a[i].next)
              && KeptApart(a, i, x, Here(dom))
            else Here(dom) == mid
  {
    ghost var a, f, pool := dom.nodes.recs, dom.nodes.doc, dom.strings;
    InPreUp(f, 0, i);
    InPreUp(f, 0, x);
    SiblingsInDocument(a, f, i);
    var isBlock := IsBlock(dom.nodes.TagByte(i));
    var inlineX := IsInline(dom.nodes.TagByte(x));
    var prev := dom.nodes.PrevSiblingIndex(i);
    var next := dom.nodes.NextSiblingIndex(i);
    ReplaceFirstHalf(dom, ink, i, x);
    mid := Here(dom);
    ok, first := true, mid;
    if isBlock && inlineX {
      ReadyForSpaces(a, f, pool, mid, ink, i, x);
      ok, first := SpaceAround(dom, ink, prev, x, next);
    }
    ReplacementDone(a, f, pool, mid, first, Here(dom), ink, i, x, ok);
  }

  /** Where the first half leaves the document. */
  ghost predicate HalfWay(a: Arena, f: Forest, pool: Bytes, mid: Page, ink: Ink, i: nat, x: nat)
  {
    && Linked(a, f) && 0 < |a| && i < |a| && x < |a| && Attached(f, i) && Attached(f, x) && i !in Pre(f, x)
    && i in Pre(f, 0) && x in Pre(f, 0) && i != 0 && f.par[0] == None && LinkOk(a[i].prev, |a|)
    && LinkOk(a[i].next, |a|)
    && Whole(mid) && Replaced(a, f, pool, mid.recs, mid.doc, mid.pool, ink, i, x) && Upright(f, mid.doc)
    && SpaceTold(a, f, pool, mid.recs, mid.doc, mid.pool, ink, i, x)
    && TidiedUp(a, Replace(f, i, x), pool, ink, mid, Home(Replace(f, i, x), f.par[x].value, i), f.par[x].value)
  }

  lemma ReadyForSpaces(a: Arena, f: Forest, pool: Bytes, mid: Page, ink: Ink, i: nat, x: nat)
    requires HalfWay(a, f, pool, mid, ink, i, x)
    ensures Attached(mid.doc, x) && Grounded(mid.doc, x)
    ensures LinkOk(a[i].prev, |mid.recs|) && LinkOk(a[i].next, |mid.recs|)
    ensures a[i].next.Some? ==> Grounded(mid.doc, a[i].next.value)
    ensures a[i].prev.Some? ==> Attached(mid.doc, a[i].prev.value) || mid.doc.par[a[i].prev.value] == None
  {
    UprightGrounded(f, mid.doc, x);
    SiblingsInDocument(a, f, i);
    if a[i].next.Some? { UprightGrounded(f, mid.doc, a[i].next.value); }
  }

  /** What the spaces make of it. */
  ghost predicate WithSpaces(mid: Page, first: Page, last: Page, ink: Ink, prev: Option<nat>, x: nat,
      next: Option<nat>, ok: bool)
    requires Whole(mid) && x < |mid.recs| && LinkOk(prev, |mid.recs|)
  {
    && Whole(first) && Whole(last) && |mid.doc.kids| <= |last.doc.kids| && AllStay(mid.doc, last.doc)
    && InkAsIn(mid.recs, mid.pool, mid.doc, last.recs, last.doc, last.pool, ink)
    && (!ok <==> Asks(mid.recs, prev, Some(x)) && PrevGone(mid.doc, prev)
                 && !SpaceBeside(mid.recs, mid.doc, mid.pool, x))
    && if ok then
         && Extends(mid.recs, mid.pool, first.recs, first.pool) && Extends(first.recs, first.pool, last.recs, last.pool)
         && MaybeSpaced(mid, first, prev, Some(x)) && MaybeSpaced(first, last, Some(x), next)
       else last == mid
  }

  lemma ReplacementDone(a: Arena, f: Forest, pool: Bytes, mid: Page, first: Page, last: Page, ink: Ink, i: nat, x: nat,
      ok: bool)
    requires HalfWay(a, f, pool, mid, ink, i, x) && Whole(last)
    requires LinkOk(a[i].prev, |mid.recs|) && x < |mid.recs|
    requires if IsBlock(a[i].tag) && IsInline(a[x].tag) then
               WithSpaces(mid, first, last, ink, a[i].prev, x, a[i].next, ok)
             else ok && last == mid && first == mid
    ensures Tidy(Replace(f, i, x)) && |Replace(f, i, x).kids| == |a| <= |last.doc.kids|
    ensures InkAsIn(a, pool, Replace(f, i, x), last.recs, last.doc, last.pool, ink)
            <==> Harmless(a, Replace(f, i, x), pool, ink, f.par[x].value)
    ensures PlacesAfter(f, last.doc, i, x)
    ensures !ok <==> Stops(a, f, pool, ink, i, x)
    ensures Extends(a, pool, last.recs, last.pool)
    ensures ok && IsBlock(a[i].tag) && IsInline(a[x].tag) ==> KeptApart(a, i, x, last)
  {
    StopsIs(a, f, pool, mid.recs, mid.doc, mid.pool, ink, i, x);
    if IsBlock(a[i].tag) && IsInline(a[x].tag) {
      SecondHalf(a, f, pool, mid.recs, mid.doc, mid.pool, last.recs, last.doc, last.pool, ink, i, x);
      if ok {
        ExtendsOn(mid.recs, mid.pool, first.recs, first.pool, last.recs, last.pool);
        ExtendsOn(a, pool, mid.recs, mid.pool, last.recs, last.pool);
        ReadyForSpaces(a, f, pool, mid, ink, i, x);
        assert Payload(mid.recs[x]) == Payload(a[x]);
        if a[i].prev.Some? { assert Payload(mid.recs[a[i].prev.value]) == Payload(a[a[i].prev.value]); }
        ApartAfter(a, f, pool, mid, first, last, ink, i, x, Home(Replace(f, i, x), f.par[x].value, i),
                   f.par[x].value);
      }
    }
  }

  /** The spaces change neither the text nor any place. */
  lemma SecondHalf(a: Arena, f: Forest, pool: Bytes, b: Arena, g: Forest, pool': Bytes, c: Arena, h: Forest,
      pool'': Bytes, ink: Ink, i: nat, x: nat)
    requires Linked(a, f) && Linked(c, h) && Attached(f, i) && Attached(f, x) && i !in Pre(f, x) && i < |a|
    requires Replaced(a, f, pool, b, g, pool', ink, i, x) && AllStay(g, h)
             && |g.kids| <= |h.kids| && InkAsIn(b, pool', g, c, h, pool'', ink)
    ensures InkAsIn(a, pool, Replace(f, i, x), c, h, pool'', ink)
            <==> Harmless(a, Replace(f, i, x), pool, ink, f.par[x].value)
    ensures PlacesAfter(f, h, i, x)
  {
    StillAfter(f, g, h, i, x);
    SameStill(a, Replace(f, i, x), pool, b, g, pool', c, h, pool'', ink);
  }

  lemma SameStill(a: Arena, d: Forest, pool: Bytes, b: Arena, g: Forest, pool': Bytes, c: Arena, h: Forest,
      pool'': Bytes, ink: Ink)
    requires Tidy(d) && Tidy(g) && Tidy(h) && |d.kids| <= |g.kids| <= |h.kids|
    requires InkAsIn(b, pool', g, c, h, pool'', ink)
    ensures InkAsIn(a, pool, d, c, h, pool'', ink) <==> InkAsIn(a, pool, d, b, g, pool', ink)
  {
    forall t | 0 <= t < |d.kids|
        ensures InkAll(c, pool'', ink, Pre(h, t)) == InkAll(a, pool, ink, Pre(d, t))
                <==> InkAll(b, pool', ink, Pre(g, t)) == InkAll(a, pool, ink, Pre(d, t)) {
      assert InkAll(c, pool'', ink, Pre(h, t)) == InkAll(b, pool', ink, Pre(g, t));
    }
  }

  /** Half-way through it is settled whether the second half stops. */
  lemma StopsIs(a: Arena, f: Forest, pool: Bytes, b: Arena, g: Forest, pool': Bytes, ink: Ink, i: nat, x: nat)
    requires Linked(a, f) && Linked(b, g) && i < |a| && x < |a| && x < |b| && Attached(f, i) && Attached(f, x)
             && i !in Pre(f, x) && LinkOk(a[i].prev, |a|) && LinkOk(a[i].prev, |b|)
    requires Replaced(a, f, pool, b, g, pool', ink, i, x) && SpaceTold(a, f, pool, b, g, pool', ink, i, x)
    ensures Stops(a, f, pool, ink, i, x) <==>
            IsBlock(a[i].tag) && IsInline(a[x].tag)
            && (Asks(b, a[i].prev, Some(x)) && PrevGone(g, a[i].prev) && !SpaceBeside(b, g, pool', x))
  {
    assert Payload(b[x]) == Payload(a[x]);
    if a[i].prev.Some? { assert Payload(b[a[i].prev.value]) == Payload(a[a[i].prev.value]); }
  }

  lemma SiblingsInDocument(a: Arena, f: Forest, i: nat)
    requires Linked(a, f) && 0 < |a| && f.par[0] == None && i in Pre(f, 0) && i != 0 && i < |a|
    ensures Attached(f, i) && (a[i].next.Some? ==> a[i].next.value in Pre(f, 0)) && LinkOk(a[i].prev, |a|)
  {
    RelativesOutside(f, a, 0, i);
    SiblingsAttached(a, f, i);
  }

  /** The replacement itself and the pruning of what the replacement left empty. */
  method ReplaceFirstHalf(dom: DomInner, ink: Ink, i: nat, x: nat)
    requires dom.Valid() && BlankSpace(ink) && i < |dom.nodes.recs| && 0 < x < |dom.nodes.recs| && i != 0
    requires i in Pre(dom.nodes.doc, 0) && x in Pre(dom.nodes.doc, 0) && i !in Pre(dom.nodes.doc, x)
             && Attached(dom.nodes.doc, i) && Attached(dom.nodes.doc, x)
    requires |dom.nodes.recs| + Depth(dom.nodes.doc, 0, x) + 1 <= Sentinel(dom.nodes.width)
             && |dom.strings| + Depth(dom.nodes.doc, 0, x) + 1 < U32
    modifies dom`strings, dom.nodes`bytes, dom.nodes`recs, dom.nodes`doc
    ensures dom.Valid()
            && HalfWay(old(dom.nodes.recs), old(dom.nodes.doc), old(dom.strings), Here(dom), ink, i, x)
    ensures |dom.nodes.recs| + 2 <= Sentinel(dom.nodes.width) && |dom.strings| + 2 < U32
  {
    ghost var a, f, pool := dom.nodes.recs, dom.nodes.doc, dom.strings;
    var q := dom.nodes.ParentIndex(x).value;
    dom.nodes.ReplaceWith(i, x);
    ghost var b, g := dom.nodes.recs, dom.nodes.doc;
    ReplaceReady(a, f, b, dom.nodes.width, pool, i, x);
    var kept, cursor := Prune(dom, ink, i, q, Home(g, q, i));
    FirstHalfDone(a, f, pool, b, Here(dom), ink, i, x, kept, Sentinel(dom.nodes.width));
  }

  lemma FirstHalfDone(a: Arena, f: Forest, pool: Bytes, b: Arena, mid: Page, ink: Ink, i: nat, x: nat, kept: nat,
      room: nat)
    requires Linked(a, f) && 0 < |a| && f.par[0] == None && TextsOk(a, |pool|) && i < |a| && x < |a| && i in Pre(f, 0)
             && x in Pre(f, 0) && i !in Pre(f, x) && Attached(f, i) && Attached(f, x) && i != 0
    requires SamePayloads(a, b) && |b| == |a| && Linked(b, Replace(f, i, x)) && Whole(mid)
    requires var g, q := Replace(f, i, x), f.par[x].value;
             && q < |b| && q in Pre(g, Home(g, q, i))
             && Pruned(b, g, pool, mid.recs, mid.doc, mid.pool, ink, Home(g, q, i), q, kept)
             && RemovedAre(b, g, pool, ink, mid.doc, q) && KidsAfter(b, g, mid.doc)
             && SpacesPut(b, g, pool, mid.recs, mid.doc, mid.pool)
             && SpacedOut(b, g, mid.recs, mid.doc, mid.pool, Home(g, q, i))
    requires |a| + Depth(f, 0, x) + 1 <= room && |pool| + Depth(f, 0, x) + 1 < U32
    ensures HalfWay(a, f, pool, mid, ink, i, x) && |mid.recs| + 2 <= room && |mid.pool| + 2 < U32
  {
    var g, q := Replace(f, i, x), f.par[x].value;
    assert Extends(a, pool, b, pool) by { assert forall m :: 0 <= m < |a| ==> TextIn(a, |pool|, m); }
    SiblingsAttached(a, f, i);
    OldParentsHome(f, i, x);
    ReplacedFacts(a, f, pool, b, mid.recs, mid.doc, mid.pool, ink, i, x, kept);
    TidiedIs(a, pool, b, g, ink, mid, Home(g, q, i), q);
    UprightAfter(a, f, mid.doc, i, x);
    SpaceIsTold(a, f, pool, b, mid.recs, mid.doc, mid.pool, ink, i, x);
  }

  /** After the bare replacement the old parent of `x` is ready to be pruned. */
  lemma ReplaceReady(a: Arena, f: Forest, b: Arena, width: Width, pool: Bytes, i: nat, x: nat)
    requires Linked(a, f) && 0 < |a| && f.par[0] == None && TextsOk(a, |pool|) && SamePayloads(a, b) && |b| == |a|
    requires i < |a| && x < |a| && i in Pre(f, 0) && x in Pre(f, 0) && i !in Pre(f, x) && Attached(f, i)
             && Attached(f, x) && i != 0
    requires Linked(b, Replace(f, i, x))
    requires |a| + Depth(f, 0, x) + 1 <= Sentinel(width) && |pool| + Depth(f, 0, x) + 1 < U32
    ensures var g, q := Replace(f, i, x), f.par[x].value;
            && q < |b| && q in Pre(g, Home(g, q, i)) && PruneReady(b, g, width, pool, Home(g, q, i), q)
    ensures TextsOk(b, |pool|)
  {
    TextsKept(a, b, |pool|, |pool|);
    var q := f.par[x].value;
    OldParentsHome(f, i, x);
    ReplaceParents(f, i, x);
    Neighbours(a, f, x);
    assert Payload(b[q]) == Payload(a[q]);
  }

  /** If the inline previous sibling went, the space tests at `x` are told from the document before. */
  ghost predicate SpaceTold(a: Arena, f: Forest, pool: Bytes, c: Arena, h: Forest, pool': Bytes, ink: Ink, i: nat,
      x: nat)
    requires Linked(a, f) && Linked(c, h) && i < |a| && x < |a| && x < |c| && Attached(f, i) && Attached(f, x)
             && i !in Pre(f, x) && LinkOk(a[i].prev, |a|)
  {
    PrevGone(h, a[i].prev) && IsInline(a[a[i].prev.value].tag) ==>
      (SpaceBeside(c, h, pool', x) <==> SpaceKept(a, f, pool, ink, i, x))
  }

  lemma SpaceIsTold(a: Arena, f: Forest, pool: Bytes, b: Arena, c: Arena, h: Forest, pool': Bytes, ink: Ink, i: nat,
      x: nat)
    requires Linked(a, f) && Linked(c, h) && 0 < |a| && f.par[0] == None && i in Pre(f, 0) && i != 0
    requires i < |a| && x < |a| && |a| <= |c| && Attached(f, i) && Attached(f, x) && i !in Pre(f, x)
             && LinkOk(a[i].prev, |a|)
    requires Replaced(a, f, pool, c, h, pool', ink, i, x)
    requires var g, q := Replace(f, i, x), f.par[x].value;
             && Linked(b, g) && |b| == |a| && Extends(a, pool, b, pool) && q < |b| && KidsAfter(b, g, h)
             && OthersStay(g, h, q) && LooseStay(g, h) && RemovedAre(b, g, pool, ink, h, q)
    ensures SpaceTold(a, f, pool, c, h, pool', ink, i, x)
  {
    if PrevGone(h, a[i].prev) && IsInline(a[a[i].prev.value].tag) {
      var v := a[i].prev.value;
      GoesAbove(a, f, pool, ink, x, v);
      ClassesApart(a[v].tag);
      SpaceBesideIs(a, f, pool, b, c, h, pool', ink, i, x, v);
    }
  }

  /** A space before and a space after `x`, where its inline neighbours have none. */
  method SpaceAround(dom: DomInner, ink: Ink, prev: Option<nat>, x: nat, next: Option<nat>)
      returns (ok: bool, ghost first: Page)
    requires dom.Valid() && BlankSpace(ink) && x < |dom.nodes.recs| && Attached(dom.nodes.doc, x)
    requires LinkOk(prev, |dom.nodes.recs|) && LinkOk(next, |dom.nodes.recs|)
    requires Grounded(dom.nodes.doc, x) && (next.Some? ==> Grounded(dom.nodes.doc, next.value))
    requires prev.Some? ==> Attached(dom.nodes.doc, prev.value) || dom.nodes.doc.par[prev.value] == None
    requires |dom.nodes.recs| + 2 <= Sentinel(dom.nodes.width) && |dom.strings| + 2 < U32
    modifies dom`strings, dom.nodes`bytes, dom.nodes`recs, dom.nodes`doc
    ensures dom.Valid() && WithSpaces(old(Here(dom)), first, Here(dom), ink, prev, x, next, ok)
  {
    ghost var p := Here(dom);
    var r := InsertSpaceNodeIfNeeded(dom, ink, prev, Some(x));
    first := Here(dom);
    SpaceIs(p, first, ink, r, prev, Some(x));
    ok := !r.Panicked?;
    if ok {
      if next.Some? { GroundedStill(p.doc, first.doc, next.value); }
      var r' := InsertSpaceNodeIfNeeded(dom, ink, Some(x), next);
      ghost var last := Here(dom);
      SpaceIs(first, last, ink, r', Some(x), next);
      TwoSpaces(p, first, last, ink);
    }
  }

  /** What one call of `InsertSpaceNodeIfNeeded` did, unless it stopped. */
  lemma SpaceIs(p: Page, q: Page, ink: Ink, r: Outcome, prev: Option<nat>, next: Option<nat>)
    requires Whole(p) && Whole(q) && Extends(p.recs, p.pool, q.recs, q.pool)
    requires Spaced(p.recs, p.doc, p.pool, q.recs, q.doc, q.pool, ink, r, prev)
    requires LinkOk(prev, |p.recs|) && LinkOk(next, |p.recs|)
    requires !r.Skipped? <==> Asks(p.recs, prev, next) && !SpaceBeside(p.recs, p.doc, p.pool, next.value)
    ensures |p.doc.kids| <= |q.doc.kids| && InkAsIn(p.recs, p.pool, p.doc, q.recs, q.doc, q.pool, ink)
    ensures AllStay(p.doc, q.doc)
    ensures if r.Panicked? then q == p else MaybeSpaced(p, q, prev, next)
  {
    SpacedInk(p.recs, p.doc, p.pool, q.recs, q.doc, q.pool, ink, r, prev);
  }

  lemma TwoSpaces(p: Page, q: Page, r: Page, ink: Ink)
    requires Whole(p) && Whole(q) && Whole(r) && |p.doc.kids| <= |q.doc.kids| <= |r.doc.kids|
    requires Extends(p.recs, p.pool, q.recs, q.pool) && Extends(q.recs, q.pool, r.recs, r.pool)
    requires InkAsIn(p.recs, p.pool, p.doc, q.recs, q.doc, q.pool, ink)
    requires InkAsIn(q.recs, q.pool, q.doc, r.recs, r.doc, r.pool, ink)
    requires AllStay(p.doc, q.doc) && AllStay(q.doc, r.doc)
    ensures Extends(p.recs, p.pool, r.recs, r.pool) && AllStay(p.doc, r.doc)
    ensures InkAsIn(p.recs, p.pool, p.doc, r.recs, r.doc, r.pool, ink)
  {
    AllStayOn(p.doc, q.doc, r.doc);
    ExtendsOn(p.recs, p.pool, q.recs, q.pool, r.recs, r.pool);
    forall t | 0 <= t < |p.doc.kids|
        ensures InkAll(r.recs, r.pool, ink, Pre(r.doc, t)) == InkAll(p.recs, p.pool, ink, Pre(p.doc, t)) {
      assert InkAll(q.recs, q.pool, ink, Pre(q.doc, t)) == InkAll(p.recs, p.pool, ink, Pre(p.doc, t));
    }
  }

  /** A space node has no visible text, so no tree's visible text differs. */
  lemma SpacedInk(a: Arena, f: Forest, pool: Bytes, b: Arena, g: Forest, pool': Bytes, ink: Ink, r: Outcome,
      prev: Option<nat>)
    requires Linked(a, f) && Linked(b, g) && Extends(a, pool, b, pool') && Spaced(a, f, pool, b, g, pool', ink, r, prev)
    ensures |f.kids| <= |g.kids| && InkAsIn(a, pool, f, b, g, pool', ink)
    ensures AllStay(f, g)
  {
    forall n | r.Added? && 0 <= n < |f.par| ensures Stays(f, g, n) {
      AddLeafStays(f, f.par[prev.value].value, SpaceAt(f, prev.value), n);
    }
    forall t | 0 <= t < |f.kids| ensures InkAll(b, pool', ink, Pre(g, t)) == InkAll(a, pool, ink, Pre(f, t)) {
      TreeInRange(f, t);
      InkKept(a, pool, b, pool', ink, Pre(f, t));
      if r.Added? { AddLeafInk(b, pool', ink, f, f.par[prev.value].value, SpaceAt(f, prev.value), t); }
    }
  }

  // ---- a document on which it stops ----

  const A: byte := 5
  const B: byte := 14
  const DIV: byte := 39
  const EM: byte := 42

  function ExampleForest(): Forest {
    Forest([None, Some(0), Some(0), Some(1), Some(3)], [[1, 2], [3], [], [4], []], [0, 1, 1, 2, 3], 3)
  }

  /** The example grows leaf by leaf. */
  function Grown(k: nat): Forest
    requires k <= 4
  {
    match k
    case 0 => Forest([None], [[]], [0], 0)
    case 1 => Forest([None, Some(0)], [[1], []], [0, 1], 1)
    case 2 => Forest([None, Some(0), Some(0)], [[1, 2], [], []], [0, 1, 1], 1)
    case 3 => Forest([None, Some(0), Some(0), Some(1)], [[1, 2], [3], [], []], [0, 1, 1, 2], 2)
    case _ => ExampleForest()
  }

  lemma ExampleGrows()
    ensures AddLeaf(Grown(0), 0, 0) == Grown(1) && AddLeaf(Grown(1), 0, 1) == Grown(2)
    ensures AddLeaf(Grown(2), 1, 0) == Grown(3) && AddLeaf(Grown(3), 3, 0) == Grown(4)
  {
    assert Insert([], 0, 1) == [1] && Insert([1], 1, 2) == [1, 2] && Insert([], 0, 3) == [3] && Insert([], 0, 4) == [4];
  }

  lemma ExamplePre()
    requires Tidy(ExampleForest())
    ensures 2 in Pre(ExampleForest(), 0) && 4 in Pre(ExampleForest(), 0) && 2 !in Pre(ExampleForest(), 4)
    ensures Depth(ExampleForest(), 0, 4) <= 4
  {
    var f := ExampleForest();
    assert f.kids[0][1] == 2 && f.kids[0][0] == 1 && f.kids[1][0] == 3 && f.kids[3][0] == 4;
    InPreDown(f, 0, 0, 2);
    InPreDown(f, 0, 0, 1);
    InPreDown(f, 0, 1, 3);
    InPreDown(f, 0, 3, 4);
    assert Pre(f, 4) == [4] + PreAll(f, 4, []);
    assert Depth(f, 0, 1) == 1 && Depth(f, 0, 3) == 2;
  }

  /** Elements with the tags given, in this order. */
  ghost predicate HasTags(recs: Arena, tags: seq<byte>) {
    |recs| == |tags| && forall k :: 0 <= k < |tags| ==> Payload(recs[k]) == Blank(tags[k], None, None, None)
  }

  method AddTag(nodes: Nodes, i: nat, ghost tags: seq<byte>, tag: byte)
    requires nodes.Rooted() && nodes.width == U24 && HasTags(nodes.recs, tags)
    requires i < |tags| < 10 && !IsStringTag(tags[i])
    modifies nodes`bytes, nodes`recs, nodes`doc
    ensures nodes.Rooted() && HasTags(nodes.recs, tags + [tag])
    ensures nodes.doc == AddLeaf(old(nodes.doc), i, |old(nodes.doc).kids[i]|)
  {
    assert Payload(nodes.recs[i]) == Blank(tags[i], None, None, None);
    var n := nodes.AddAsLastChild(i, tag);
  }

  /** An `a` holding an `em` that holds only a `b`, followed by a `div`. */
  method StoppingDocument(ghost ink: Ink) returns (dom: DomInner)
    ensures fresh(dom) && fresh(dom.nodes) && dom.Valid() && dom.nodes.doc == ExampleForest() && dom.strings == []
    ensures |dom.nodes.recs| == 5 && dom.nodes.width == U24
    ensures Stops(dom.nodes.recs, dom.nodes.doc, dom.strings, ink, 2, 4)
  {
    var nodes := new Nodes.New();
    ExampleGrows();
    AddTag(nodes, 0, [SYS_ROOT], A);
    assert nodes.doc == Grown(1);
    AddTag(nodes, 0, [SYS_ROOT, A], DIV);
    assert nodes.doc == Grown(2);
    AddTag(nodes, 1, [SYS_ROOT, A, DIV], EM);
    assert nodes.doc == Grown(3);
    AddTag(nodes, 3, [SYS_ROOT, A, DIV, EM], B);
    ExampleRecords(nodes.recs);
    dom := new DomInner(nodes, []);
    ExampleStops(nodes.recs, ink);
  }

  lemma ExampleRecords(recs: Arena)
    requires HasTags(recs, [SYS_ROOT, A, DIV, EM, B])
    ensures TextsOk(recs, 0)
  {
    forall k | 0 <= k < |recs| ensures recs[k].body.Branch? {
      assert Payload(recs[k]) == Blank([SYS_ROOT, A, DIV, EM, B][k], None, None, None);
    }
  }

  lemma ExampleStops(recs: Arena, ink: Ink)
    requires HasTags(recs, [SYS_ROOT, A, DIV, EM, B]) && Linked(recs, ExampleForest())
    ensures Stops(recs, ExampleForest(), [], ink, 2, 4)
  {
    var f := ExampleForest();
    ExamplePlaces(recs);
    ExampleGoes(recs, ink);
    assert Asks(recs, Some(1), Some(4)) && IsBlock(DIV);
    NoSpaceAnywhere(recs, f, [], ink, 2, 4);
  }

  lemma ExamplePlaces(recs: Arena)
    requires HasTags(recs, [SYS_ROOT, A, DIV, EM, B]) && Linked(recs, ExampleForest())
    ensures var f := ExampleForest(); Attached(f, 2) && Attached(f, 4) && 2 !in Pre(f, 4) && recs[2].prev == Some(1)
    ensures recs[0].tag == SYS_ROOT && recs[1].tag == A && recs[2].tag == DIV && recs[3].tag == EM && recs[4].tag == B
  {
    var f := ExampleForest();
    assert EntryOk(recs, f.kids[0], 1);
    assert f.kids[0][0] == 1 && f.kids[0][1] == 2 && f.kids[1][0] == 3 && f.kids[3][0] == 4;
    assert Payload(recs[0]).tag == SYS_ROOT && Payload(recs[1]).tag == A && Payload(recs[2]).tag == DIV
           && Payload(recs[3]).tag == EM && Payload(recs[4]).tag == B;
    assert Pre(f, 4) == [4] + PreAll(f, 4, []);
  }

  /** The `em` has only the `b`, and the `a` only the `em`. */
  lemma ExampleGoes(recs: Arena, ink: Ink)
    requires |recs| == 5 && Linked(recs, ExampleForest()) && recs[1].tag == A && recs[3].tag == EM
    requires Attached(ExampleForest(), 4)
    ensures Goes(recs, ExampleForest(), [], ink, 4, 1)
  {
    var f := ExampleForest();
    assert f.kids[0][0] == 1 && f.kids[1][0] == 3 && f.kids[3][0] == 4;
    assert Goes(recs, f, [], ink, 3, 1);
  }

  /** A document without text nodes has no spaces. */
  lemma NoSpaceAnywhere(a: Arena, f: Forest, pool: Bytes, ink: Ink, i: nat, x: nat)
    requires Linked(a, f) && Attached(f, i) && Attached(f, x) && i !in Pre(f, x) && i < |a| && x < |f.kids|
    requires forall n :: 0 <= n < |a| ==> a[n].tag != SYS_TEXT
    ensures !SpaceKept(a, f, pool, ink, i, x)
  {
    var r := TreeAfter(a, f, pool, ink, i, x);
    if r < |f.kids| && a[i].prev.Some? {
      var order, v := Pre(f, r), a[i].prev.value;
      if v in order && i in order && IndexOf(order, i) + |Pre(f, i)| <= |order| {
        NoTextNoSpace(a, pool, order[..IndexOf(order, v)]);
        NoTextNoSpace(a, pool, Pre(f, x)[1..] + order[IndexOf(order, i) + |Pre(f, i)|..]);
      }
    }
  }

  /** Replacing the `div` by the `b` empties the `em` and then the `a`, and stops when the `a` is looked for again. */
  method StoppingReplacement(ink: Ink) returns (ok: bool)
    requires BlankSpace(ink)
    ensures !ok
  {
    var dom := StoppingDocument(ink);
    ExamplePre();
    ghost var mid, first;
    ok, mid, first := ReplaceElement(dom, ink, 2, 4);
  }

  // ---- a document that loses text ----

  function HidingForest(): Forest {
    Forest([None, Some(0), Some(1), Some(1), Some(1)], [[1], [2, 3, 4], [], [], []], [0, 1, 2, 2, 2], 2)
  }

  /** A `div` with an empty text, a text and a `b`. */
  method HidingDocument() returns (dom: DomInner)
    ensures fresh(dom) && fresh(dom.nodes) && dom.Valid() && dom.nodes.doc == HidingForest() && dom.nodes.width == U24
    ensures |dom.nodes.recs| == 5 && dom.nodes.recs[1].tag == DIV && |dom.strings| == 1
    ensures EmptyText(dom.nodes.recs, 2) && dom.nodes.recs[3].tag == SYS_TEXT && dom.nodes.recs[3].body.Text?
    ensures TextIn(dom.nodes.recs, |dom.strings|, 3) && TextOf(dom.nodes.recs, dom.strings, 3) == [97]
    ensures dom.nodes.recs[1].body.Branch?
  {
    var nodes := new Nodes.New();
    ExampleGrows();
    HidingGrows();
    AddTag(nodes, 0, [SYS_ROOT], DIV);
    assert nodes.doc == Grown(1);
    DivRecords(nodes.recs);
    dom := new DomInner(nodes, []);
    ghost var c := nodes.recs;
    var hidden := dom.AppendTextChild(SYS_TEXT, 1, []);
    ghost var d := nodes.recs;
    assert nodes.doc == Hiding(1);
    assert Payload(d[1]) == Payload(c[1]);
    var text := dom.AppendTextChild(SYS_TEXT, 1, [97]);
    ghost var e := nodes.recs;
    assert nodes.doc == Hiding(2);
    assert Payload(e[1]) == Payload(d[1]) && Payload(e[2]) == Payload(d[2]);
    var b := nodes.AddAsLastChild(1, B);
    TextsGrown(e, nodes.recs, 1, B);
    assert Payload(nodes.recs[1]) == Payload(e[1]) && Payload(nodes.recs[2]) == Payload(e[2])
           && Payload(nodes.recs[3]) == Payload(e[3]);
  }

  /** The document grows leaf by leaf. */
  lemma HidingGrows()
    ensures AddLeaf(Grown(1), 1, 0) == Hiding(1) && AddLeaf(Hiding(1), 1, 1) == Hiding(2)
    ensures AddLeaf(Hiding(2), 1, 2) == Hiding(3) == HidingForest()
  {
    assert Insert([], 0, 2) == [2] && Insert([2], 1, 3) == [2, 3] && Insert([2, 3], 2, 4) == [2, 3, 4];
  }

  function Hiding(k: nat): Forest
    requires 1 <= k <= 3
  {
    match k
    case 1 => Forest([None, Some(0), Some(1)], [[1], [2], []], [0, 1, 2], 2)
    case 2 => Forest([None, Some(0), Some(1), Some(1)], [[1], [2, 3], [], []], [0, 1, 2, 2], 2)
    case _ => HidingForest()
  }

  lemma DivRecords(recs: Arena)
    requires HasTags(recs, [SYS_ROOT, DIV])
    ensures TextsOk(recs, 0) && recs[1].body.Branch?
  {
    forall k | 0 <= k < |recs| ensures recs[k].body.Branch? {
      assert Payload(recs[k]) == Blank([SYS_ROOT, DIV][k], None, None, None);
    }
  }

  /**
   Removing the `b` takes the whole `div` along, whose text the test does not get to see behind the
   empty one: visible text is lost.
   */
  method LosingRemoval(ink: Ink) returns (dom: DomInner, ghost a: Arena, ghost pool: Bytes)
    requires BlankSpace(ink) && ink([97]) != []
    ensures dom.Valid() && Linked(a, HidingForest()) && Tidy(Detach(HidingForest(), 4)) && |a| <= |dom.nodes.doc.kids|
    ensures InkAll(a, pool, ink, Pre(Detach(HidingForest(), 4), 1)) == ink([97])
    ensures dom.nodes.doc.par[1] == None && 4 !in Pre(dom.nodes.doc, 0)
    ensures !InkAsIn(a, pool, Detach(HidingForest(), 4), dom.nodes.recs, dom.nodes.doc, dom.strings, ink)
  {
    dom := HidingDocument();
    a, pool := dom.nodes.recs, dom.strings;
    HidingPre(dom.nodes.doc);
    HidingSeen(a, pool, ink);
    HidingGoes(a, pool, ink);
    var cursor, kept := RemoveElement(dom, ink, 4);
  }

  lemma HidingPre(f: Forest)
    requires f == HidingForest() && Tidy(f)
    ensures 4 in Pre(f, 0) && Depth(f, 0, 4) <= 2 && Attached(f, 4) && Attached(f, 1)
    ensures Tidy(Detach(f, 4)) && Pre(Detach(f, 4), 1) == [1, 2, 3]
  {
    assert f.kids[0][0] == 1 && f.kids[1][2] == 4;
    InPreDown(f, 0, 0, 1);
    InPreDown(f, 0, 1, 4);
    assert Depth(f, 0, 1) == 1;
    DetachTidy(f, 4);
    var d := Detach(f, 4);
    assert NoDup([2, 3, 4]) && IndexOf([2, 3, 4], 4) == 2;
    assert d.kids[1] == [2, 3];
    assert Pre(d, 2) == [2] + PreAll(d, 2, []) && Pre(d, 3) == [3] + PreAll(d, 3, []);
    PreAllOne(d, 1, 2) by { assert ChildOk(d, 1, d.kids[1][0]); }
    PreAllOne(d, 1, 3) by { assert ChildOk(d, 1, d.kids[1][1]); }
    assert [2] + [3] == [2, 3];
    PreAllAppend(d, 1, [2], [3]);
    assert Pre(d, 1) == [1] + PreAll(d, 1, [2, 3]);
  }

  /** What is left of the `div` shows its text, but the test sees none of it. */
  lemma HidingSeen(a: Arena, pool: Bytes, ink: Ink)
    requires |a| == 5 && a[1].body.Branch? && EmptyText(a, 2) && TextIn(a, |pool|, 2) && ink([]) == []
    requires a[3].tag == SYS_TEXT && a[3].body.Text? && TextIn(a, |pool|, 3) && TextOf(a, pool, 3) == [97]
    ensures InkAll(a, pool, ink, [1, 2, 3]) == ink([97]) && InkSeen(a, pool, ink, [1, 2, 3]) == []
  {
    assert [1, 2, 3] == [1] + [2, 3] && [2, 3] == [2] + [3] && [2][1..] == [] && [3][1..] == [];
    BranchUnseen(a, pool, ink, 1);
    SeenAppend(a, pool, ink, [1], [2, 3]);
    InkAppend(a, pool, ink, [1], [2, 3]);
    InkAppend(a, pool, ink, [2], [3]);
    assert TextOf(a, pool, 2) == [];
    assert InkAll(a, pool, ink, [2]) == InkOf(a, pool, ink, 2) + InkAll(a, pool, ink, []);
    assert InkAll(a, pool, ink, [3]) == InkOf(a, pool, ink, 3) + InkAll(a, pool, ink, []);
  }

  lemma HidingGoes(a: Arena, pool: Bytes, ink: Ink)
    requires |a| == 5 && Tidy(HidingForest()) && Tidy(Detach(HidingForest(), 4)) && a[1].tag == DIV
    requires InkAll(a, pool, ink, [1, 2, 3]) != [] && InkSeen(a, pool, ink, [1, 2, 3]) == []
    ensures Goes(a, HidingForest(), pool, ink, 4, 1) && !HarmlessWithout(a, HidingForest(), pool, ink, 4)
  {
    HidingPre(HidingForest());
    assert HollowUp(a, HidingForest(), pool, ink, 1, 4);
  }
}
