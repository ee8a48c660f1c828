/**
 Edits of a document that tidy up after themselves: removing or replacing a node prunes the
 ancestors it leaves empty, and puts a space where a block used to keep two words apart.
 */
module Pruning {
  import opened Wrappers
  import opened LittleEndian
  import opened NodeLayout
  import opened Forest
  import opened ForestEdits
  import opened Links
  import opened TextBlocks
  import opened Dom
  import opened Walk
  import opened RevWalk
  import opened Spaces
  import opened Tags
  import opened VisibleText
  import opened Climbing
  import opened StandIns

  // ---- spaces ----

  /**
   Puts a space between two inline neighbours unless the text has one there. The space node goes in
   after `prev`, whose parent must still be there.
   */
  method InsertSpaceNodeIfNeeded(dom: DomInner, ink: Ink, prev: Option<nat>, next: Option<nat>) returns (r: Outcome)
    requires dom.Valid() && BlankSpace(ink) && LinkOk(prev, |dom.nodes.recs|) && LinkOk(next, |dom.nodes.recs|)
    requires |dom.nodes.recs| < Sentinel(dom.nodes.width) && |dom.strings| + 1 < U32
    requires Asks(dom.nodes.recs, prev, next) ==> Grounded(dom.nodes.doc, next.value)
    requires Asks(dom.nodes.recs, prev, next) && dom.nodes.recs[prev.value].parent.Some? ==>
             Attached(dom.nodes.doc, prev.value)
    modifies dom`strings, dom.nodes`bytes, dom.nodes`recs, dom.nodes`doc
    ensures dom.Valid() && Extends(old(dom.nodes.recs), old(dom.strings), dom.nodes.recs, dom.strings)
    ensures !r.Skipped? <==>
            Asks(old(dom.nodes.recs), prev, next)
            && !SpaceBeside(old(dom.nodes.recs), old(dom.nodes.doc), old(dom.strings), next.value)
    ensures r.Panicked? <==> !r.Skipped? && old(dom.nodes.doc).par[prev.value] == None
    ensures Spaced(old(dom.nodes.recs), old(dom.nodes.doc), old(dom.strings), dom.nodes.recs, dom.nodes.doc,
            dom.strings, ink, r, prev)
  {
    if prev.None? || next.None? || !IsInline(dom.nodes.TagByte(prev.value))
       || !IsInline(dom.nodes.TagByte(next.value)) {
      return Skipped;
    }
    var spaced := EndsWithSpace(dom, next.value);
    if !spaced {
      spaced := StartsWithSpace(dom, next.value);
    }
    if spaced {
      return Skipped;
    }
    if dom.nodes.ParentIndex(prev.value).None? {
      return Panicked;
    }
    var n := AddSpace(dom, ink, prev.value);
    return Added(n);
  }

  method AddSpace(dom: DomInner, ink: Ink, prev: nat) returns (n: nat)
    requires dom.Valid() && BlankSpace(ink) && Attached(dom.nodes.doc, prev)
    requires |dom.nodes.recs| < Sentinel(dom.nodes.width) && |dom.strings| + 1 < U32
    modifies dom`strings, dom.nodes`bytes, dom.nodes`recs, dom.nodes`doc
    ensures dom.Valid() && Extends(old(dom.nodes.recs), old(dom.strings), dom.nodes.recs, dom.strings)
    ensures Spaced(old(dom.nodes.recs), old(dom.nodes.doc), old(dom.strings), dom.nodes.recs, dom.nodes.doc,
            dom.strings, ink, Added(n), Some(prev))
  {
    ghost var a, f, pool := dom.nodes.recs, dom.nodes.doc, dom.strings;
    n := dom.nodes.AddAsNextSibling(prev, SYS_TEXT);
    TextsGrown(a, dom.nodes.recs, |pool|, SYS_TEXT);
    assert Payload(dom.nodes.recs[n]) == Blank(SYS_TEXT, None, None, None);
    ghost var b := dom.nodes.recs;
    dom.ReplaceText(n, SPACE);
    assert SamePayloads(a, dom.nodes.recs) by {
      assert forall m :: 0 <= m < |a| ==> Payload(b[m]) == Payload(a[m]);
    }
  }

  // ---- whether a node is to be pruned ----

  /**
   Whether every text below `index` is whitespace only, as far as the program looks: an empty text
   node ends its characters.
   */
  method AllWhitespace(dom: DomInner, ink: Ink, index: nat) returns (blank: bool)
    requires dom.Valid() && index < |dom.nodes.recs| && dom.nodes.recs[index].body.Branch?
    ensures blank <==> InkSeen(dom.nodes.recs, dom.strings, ink, Pre(dom.nodes.doc, index)) == []
  {
    ghost var a, f := dom.nodes.recs, dom.nodes.doc;
    ghost var order := Pre(f, index);
    var stack: Ids := [index];
    ghost var seen: Ids := [index];
    WalkStart(a, f, dom.strings, ink, index);
    while true
      invariant OnPath(f, stack) && order == seen + Ahead(f, stack)
      invariant InkSeen(a, dom.strings, ink, seen) == [] && NoneEmpty(a, seen)
      decreases |Ahead(f, stack)|
    {
      var next, rest := FindNext(dom.nodes, stack);
      if next.None? {
        assert order == seen;
        return true;
      }
      var x := next.value;
      NextInOrder(f, index, order, seen, x, Ahead(f, rest));
      SeenStep(a, dom.strings, ink, seen, x, Ahead(f, rest));
      if dom.nodes.TagByte(x) == SYS_TEXT {
        var here, empty := TextInk(dom, ink, x);
        if empty || here != [] {
          return empty;
        }
      }
      stack, seen := rest, seen + [x];
    }
  }

  lemma WalkStart(a: Arena, f: Forest, pool: Bytes, ink: Ink, index: nat)
    requires Tidy(f) && index < |f.kids| == |a| && a[index].body.Branch?
    ensures OnPath(f, [index]) && Pre(f, index) == [index] + Ahead(f, [index])
    ensures InkSeen(a, pool, ink, [index]) == [] && NoneEmpty(a, [index])
  {
    BranchUnseen(a, pool, ink, index);
  }

  /** The next node ends the test if it is empty, and decides it if it shows anything. */
  lemma SeenStep(a: Arena, pool: Bytes, ink: Ink, seen: Ids, x: nat, ahead: Ids)
    requires InkSeen(a, pool, ink, seen) == [] && NoneEmpty(a, seen)
    ensures EmptyText(a, x) ==> InkSeen(a, pool, ink, seen + ([x] + ahead)) == []
    ensures !EmptyText(a, x) ==>
              && InkSeen(a, pool, ink, seen + [x]) == InkOf(a, pool, ink, x) && NoneEmpty(a, seen + [x])
              && InkSeen(a, pool, ink, seen + ([x] + ahead)) == InkOf(a, pool, ink, x) + InkSeen(a, pool, ink, ahead)
  {
    SeenAppend(a, pool, ink, seen, [x]);
    SeenAppend(a, pool, ink, seen, [x] + ahead);
    SeenFirst(a, pool, ink, x, []);
    SeenFirst(a, pool, ink, x, ahead);
    assert [x] + [] == [x];
  }

  lemma SeenFirst(a: Arena, pool: Bytes, ink: Ink, x: nat, ahead: Ids)
    ensures InkSeen(a, pool, ink, [x] + ahead)
            == if EmptyText(a, x) then [] else InkOf(a, pool, ink, x) + InkSeen(a, pool, ink, ahead)
  {
    assert ([x] + ahead)[1..] == ahead;
  }

  method TextInk(dom: DomInner, ink: Ink, x: nat) returns (here: seq<nat>, empty: bool)
    requires dom.Valid() && x < |dom.nodes.recs| && dom.nodes.recs[x].tag == SYS_TEXT
    ensures here == InkOf(dom.nodes.recs, dom.strings, ink, x) && (empty <==> EmptyText(dom.nodes.recs, x))
  {
    assert RecSpelled(dom.nodes.bytes, dom.nodes.width, dom.nodes.recs, x);
    assert TextIn(dom.nodes.recs, |dom.strings|, x);
    var start, end := dom.nodes.TextRange(x);
    here, empty := ink(dom.strings[start..end]), start == end;
  }

  method IsPrunable(dom: DomInner, ink: Ink, i: nat) returns (b: bool)
    requires dom.Valid() && i < |dom.nodes.recs| && dom.nodes.recs[i].body.Branch?
    ensures b <==> Prunable(dom.nodes.recs, dom.nodes.doc, dom.strings, ink, i)
  {
    EndChildren(dom.nodes.recs, dom.nodes.doc, i);
    var tag := dom.nodes.TagByte(i);
    var childless := dom.nodes.FirstChildIndex(i).None?;
    if tag == BODY || IsBlock(tag) {
      var blank := AllWhitespace(dom, ink, i);
      b := blank || childless;
    } else {
      b := tag != BR && tag != HR && childless;
    }
  }

  // ---- one node taken out ----

  /** `index` is out of its list, with a space node in its place exactly if one is due. */
  ghost predicate OutOf(a: Arena, f: Forest, pool: Bytes, b: Arena, g: Forest, pool': Bytes, ink: Ink, index: nat,
      r: Outcome, prev: Option<nat>)
    requires Tidy(f) && |a| == |f.kids| && Attached(f, index)
  {
    && Extends(a, pool, b, pool') && StepsTo(f, g, index, r, prev) && !r.Panicked?
    && |b| == |a| + (if r.Added? then 1 else 0) && pool' == pool + (if r.Added? then [32] else [])
    && (r.Added? ==> Quiet(b, pool', ink, |a|) && IsSpaceNode(b, pool', |a|))
    && (r.Added? <==> SpaceDue(a, f, pool, index))
  }

  /** Takes `index` out of its tree and, for a block, considers a space in its place. */
  method TakeOut(dom: DomInner, ink: Ink, index: nat, ghost root: nat)
      returns (parent: nat, prev: Option<nat>, next: Option<nat>, ghost r: Outcome)
    requires dom.Valid() && BlankSpace(ink) && Attached(dom.nodes.doc, index)
    requires root < |dom.nodes.recs| && dom.nodes.doc.par[root] == None && index in Pre(dom.nodes.doc, root)
    requires |dom.nodes.recs| < Sentinel(dom.nodes.width) && |dom.strings| + 1 < U32
    modifies dom`strings, dom.nodes`bytes, dom.nodes`recs, dom.nodes`doc
    ensures dom.Valid() && OutOf(old(dom.nodes.recs), old(dom.nodes.doc), old(dom.strings), dom.nodes.recs,
            dom.nodes.doc, dom.strings, ink, index, r, prev)
    ensures Some(parent) == old(dom.nodes.doc).par[index] && prev == old(dom.nodes.recs)[index].prev
            && next == old(dom.nodes.recs)[index].next
    ensures parent < old(|dom.nodes.recs|) && old(dom.nodes.recs)[parent].body.Branch?
  {
    ghost var a, f, pool := dom.nodes.recs, dom.nodes.doc, dom.strings;
    Neighbours(a, f, index);
    parent := dom.nodes.ParentIndex(index).value;
    prev := dom.nodes.PrevSiblingIndex(index);
    next := dom.nodes.NextSiblingIndex(index);
    var isBlock := IsBlock(dom.nodes.TagByte(index));
    var _ := dom.nodes.Remove(index);
    TextsKept(a, dom.nodes.recs, |pool|, |pool|);
    ghost var b := dom.nodes.recs;
    ReadyForSpace(a, f, pool, b, root, index);
    r := Skipped;
    if isBlock {
      r := InsertSpaceNodeIfNeeded(dom, ink, prev, next);
    }
    OutIs(a, f, pool, b, dom.nodes.recs, dom.nodes.doc, dom.strings, ink, root, index, r);
  }

  lemma OutIs(a: Arena, f: Forest, pool: Bytes, b: Arena, c: Arena, h: Forest, pool': Bytes, ink: Ink, root: nat,
      index: nat, r: Outcome)
    requires Linked(a, f) && Attached(f, index) && index < |a| && Extends(a, pool, b, pool) && |b| == |a|
    requires Linked(b, Detach(f, index)) && Extends(b, pool, c, pool') && LinkOk(a[index].prev, |b|)
             && LinkOk(a[index].next, |b|)
    requires a[index].prev.Some? ==> Attached(Detach(f, index), a[index].prev.value)
    requires SpaceDue(a, f, pool, index) <==>
             IsBlock(a[index].tag) && Asks(b, a[index].prev, a[index].next)
             && !SpaceBeside(b, Detach(f, index), pool, a[index].next.value)
    requires Spaced(b, Detach(f, index), pool, c, h, pool', ink, r, a[index].prev) && !r.Panicked?
    requires !r.Skipped? <==>
             IsBlock(a[index].tag) && Asks(b, a[index].prev, a[index].next)
             && !SpaceBeside(b, Detach(f, index), pool, a[index].next.value)
    ensures OutOf(a, f, pool, c, h, pool', ink, index, r, a[index].prev)
  {
    ExtendsOn(a, pool, b, pool, c, pool');
  }

  /** With `index` out of its list, its old neighbours are where the program looks for them. */
  lemma ReadyForSpace(a: Arena, f: Forest, pool: Bytes, b: Arena, root: nat, index: nat)
    requires Linked(a, f) && TextsOk(a, |pool|) && Attached(f, index) && index < |a|
    requires root < |a| && f.par[root] == None && index in Pre(f, root)
    requires Linked(b, Detach(f, index)) && SamePayloads(a, b) && |b| == |a|
    ensures Extends(a, pool, b, pool) && LinkOk(a[index].prev, |b|) && LinkOk(a[index].next, |b|)
    ensures a[index].prev.Some? ==> Attached(Detach(f, index), a[index].prev.value)
    ensures Tidy(Detach(f, index)) && (a[index].next.Some? ==> Grounded(Detach(f, index), a[index].next.value))
    ensures SpaceDue(a, f, pool, index) <==>
            IsBlock(a[index].tag) && Asks(b, a[index].prev, a[index].next)
            && !SpaceBeside(b, Detach(f, index), pool, a[index].next.value)
  {
    SiblingsAttached(a, f, index);
    assert Extends(a, pool, b, pool) by { assert forall m :: 0 <= m < |a| ==> TextIn(a, |pool|, m); }
    DueIs(a, f, pool, b, root, index);
    if a[index].prev.Some? { DetachStays(f, index, a[index].prev.value); }
    NextGrounded(a, f, root, index);
  }

  /** A node leaves its tree, and for a block a space may take its place. */
  method TakeOne(dom: DomInner, ink: Ink, index: nat, ghost root: nat)
      returns (parent: nat, prev: Option<nat>, next: Option<nat>)
    requires dom.Valid() && BlankSpace(ink) && root < |dom.nodes.recs| && dom.nodes.doc.par[root] == None
    requires index < |dom.nodes.recs| && index in Pre(dom.nodes.doc, root)
    requires |dom.nodes.recs| < Sentinel(dom.nodes.width) && |dom.strings| + 1 < U32
    requires index != root && Attached(dom.nodes.doc, index)
    modifies dom`strings, dom.nodes`bytes, dom.nodes`recs, dom.nodes`doc
    ensures dom.Valid() && Stepped(old(dom.nodes.recs), old(dom.nodes.doc), old(dom.strings), dom.nodes.recs,
            dom.nodes.doc, dom.strings, ink, root, index)
    ensures Some(parent) == old(dom.nodes.doc).par[index] && prev == old(dom.nodes.recs)[index].prev
            && next == old(dom.nodes.recs)[index].next
    ensures parent < |old(dom.nodes.recs)| && old(dom.nodes.recs)[parent].body.Branch?
    ensures ListsKept(old(dom.nodes.doc), dom.nodes.doc, index)
    ensures TakenOut(old(dom.nodes.recs), old(dom.nodes.doc), old(dom.strings), dom.nodes.recs, dom.nodes.doc,
            dom.strings, index)
    ensures Flanked(old(dom.nodes.recs), old(dom.nodes.doc), index) ==>
            NextOf(old(dom.nodes.doc), index) < |dom.nodes.doc.kids|
            && SpaceBeside(dom.nodes.recs, dom.nodes.doc, dom.strings, NextOf(old(dom.nodes.doc), index))
    ensures !IsBlock(old(dom.nodes.recs)[index].tag) ==> dom.nodes.doc == Detach(old(dom.nodes.doc), index)
  {
    ghost var a, f, pool := dom.nodes.recs, dom.nodes.doc, dom.strings;
    InPreUp(f, root, index);
    SiblingsAttached(a, f, index);
    ghost var r;
    parent, prev, next, r := TakeOut(dom, ink, index, root);
    StepKids(f, dom.nodes.doc, index, r, prev);
    StepForest(a, f, pool, dom.nodes.recs, dom.nodes.doc, dom.strings, ink, root, index, r, prev);
    StepPuts(a, f, pool, dom.nodes.recs, dom.nodes.doc, dom.strings, index, r, prev);
    if Flanked(a, f, index) {
      StepBeside(a, f, pool, dom.nodes.recs, dom.nodes.doc, dom.strings, root, index, r, prev);
    }
  }

  // ---- the climb ----

  function RepositionCursor(prev: Option<nat>, next: Option<nat>, parent: nat): nat {
    if prev.Some? then prev.value else if next.Some? then next.value else parent
  }

  /** After one step up, the parent is ready to be looked at in turn, and the cursor is in the tree. */
  lemma StepReady(a: Arena, f: Forest, width: Width, pool: Bytes, b: Arena, g: Forest, pool': Bytes, ink: Ink,
      root: nat, index: nat)
    requires Linked(a, f) && Linked(b, g) && PruneReady(a, f, width, pool, root, index) && index != root
    requires Stepped(a, f, pool, b, g, pool', ink, root, index) && f.par[index].value < |a|
             && a[f.par[index].value].body.Branch?
    ensures PruneReady(b, g, width, pool', root, f.par[index].value)
    ensures RepositionCursor(a[index].prev, a[index].next, f.par[index].value) in Pre(g, root)
  {
    var p := f.par[index].value;
    assert Payload(b[p]) == Payload(a[p]);
    RelativesOutside(f, a, root, index);
    var c := RepositionCursor(a[index].prev, a[index].next, p);
    assert c in Pre(f, root) && c !in Pre(f, index);
  }

  /**
   Prunes `index` and then, one by one, the ancestors left without content. Returns the node the
   climb stops at, and where the cursor goes.
   */
  method Prune(dom: DomInner, ink: Ink, cursor: nat, index: nat, ghost root: nat) returns (kept: nat, cursor': nat)
    requires dom.Valid() && BlankSpace(ink) && PruneReady(dom.nodes.recs, dom.nodes.doc, dom.nodes.width, dom.strings,
             root, index)
    modifies dom`strings, dom.nodes`bytes, dom.nodes`recs, dom.nodes`doc
    ensures dom.Valid()
    ensures Pruned(old(dom.nodes.recs), old(dom.nodes.doc), old(dom.strings), dom.nodes.recs, dom.nodes.doc,
            dom.strings, ink, root, index, kept)
    ensures Settled(dom.nodes.recs, dom.nodes.doc, dom.strings, ink, kept)
    ensures kept == index <==> Settled(old(dom.nodes.recs), old(dom.nodes.doc), old(dom.strings), ink, index)
    ensures kept == index ==>
            dom.nodes.recs == old(dom.nodes.recs) && dom.nodes.doc == old(dom.nodes.doc)
            && dom.strings == old(dom.strings)
    ensures kept != index ==> dom.nodes.doc.par[index] == None
    ensures RemovedAre(old(dom.nodes.recs), old(dom.nodes.doc), old(dom.strings), ink, dom.nodes.doc, index)
    ensures InkAsIn(old(dom.nodes.recs), old(dom.strings), old(dom.nodes.doc), dom.nodes.recs, dom.nodes.doc,
            dom.strings, ink)
            <==> Harmless(old(dom.nodes.recs), old(dom.nodes.doc), old(dom.strings), ink, index)
    ensures SpacesPut(old(dom.nodes.recs), old(dom.nodes.doc), old(dom.strings), dom.nodes.recs, dom.nodes.doc,
            dom.strings)
    ensures SpacedOut(old(dom.nodes.recs), old(dom.nodes.doc), dom.nodes.recs, dom.nodes.doc, dom.strings, root)
    ensures KidsAfter(old(dom.nodes.recs), old(dom.nodes.doc), dom.nodes.doc)
    ensures if kept == index then cursor' == cursor else CursorBeside(old(dom.nodes.doc), dom.nodes.doc, kept, cursor')
    ensures cursor in Pre(old(dom.nodes.doc), root) ==> cursor' in Pre(dom.nodes.doc, root)
    decreases Depth(dom.nodes.doc, root, index)
  {
    ghost var a, f, pool := dom.nodes.recs, dom.nodes.doc, dom.strings;
    var hasParent := dom.nodes.ParentIndex(index).Some?;
    var prunable := IsPrunable(dom, ink, index);
    if !hasParent || !prunable {
      PruneNothing(a, f, pool, ink, root, index);
      HarmlessIs(a, f, pool, ink, f, index);
      NothingPut(a, f, pool, root);
      return index, cursor;
    }
    kept, cursor' := PruneUp(dom, ink, index, root);
    HarmlessIs(a, f, pool, ink, dom.nodes.doc, index);
  }

  /** The removing branch of `Prune`: one node out, then its parent in turn. */
  method PruneUp(dom: DomInner, ink: Ink, index: nat, ghost root: nat) returns (kept: nat, cursor: nat)
    requires dom.Valid() && BlankSpace(ink) && PruneReady(dom.nodes.recs, dom.nodes.doc, dom.nodes.width, dom.strings,
             root, index)
    requires index != root && Prunable(dom.nodes.recs, dom.nodes.doc, dom.strings, ink, index)
    modifies dom`strings, dom.nodes`bytes, dom.nodes`recs, dom.nodes`doc
    ensures dom.Valid()
    ensures Pruned(old(dom.nodes.recs), old(dom.nodes.doc), old(dom.strings), dom.nodes.recs, dom.nodes.doc,
            dom.strings, ink, root, index, kept)
    ensures Settled(dom.nodes.recs, dom.nodes.doc, dom.strings, ink, kept)
    ensures kept != index && dom.nodes.doc.par[index] == None && cursor in Pre(dom.nodes.doc, root)
    ensures RemovedAre(old(dom.nodes.recs), old(dom.nodes.doc), old(dom.strings), ink, dom.nodes.doc, index)
    ensures SpacesPut(old(dom.nodes.recs), old(dom.nodes.doc), old(dom.strings), dom.nodes.recs, dom.nodes.doc,
            dom.strings)
    ensures SpacedOut(old(dom.nodes.recs), old(dom.nodes.doc), dom.nodes.recs, dom.nodes.doc, dom.strings, root)
    ensures KidsAfter(old(dom.nodes.recs), old(dom.nodes.doc), dom.nodes.doc)
    ensures CursorBeside(old(dom.nodes.doc), dom.nodes.doc, kept, cursor)
    decreases Depth(dom.nodes.doc, root, index), 0
  {
    ghost var a, f, pool := dom.nodes.recs, dom.nodes.doc, dom.strings;
    InPreUp(f, root, index);
    var parent, prev, next := TakeOne(dom, ink, index, root);
    ghost var b, g, pool' := dom.nodes.recs, dom.nodes.doc, dom.strings;
    StepReady(a, f, dom.nodes.width, pool, b, g, pool', ink, root, index);
    kept, cursor := Prune(dom, ink, RepositionCursor(prev, next, parent), parent, root);
    UpDone(a, f, pool, b, g, pool', dom.nodes.recs, dom.nodes.doc, dom.strings, ink, root, index, kept, cursor);
  }

  /** What the first step and the rest of the climb come to. */
  lemma UpDone(a: Arena, f: Forest, pool: Bytes, b: Arena, g: Forest, pool': Bytes, c: Arena, h: Forest, pool'': Bytes,
      ink: Ink, root: nat, index: nat, kept: nat, cursor: nat)
    requires Linked(a, f) && Linked(b, g) && Linked(c, h) && root < |a| && f.par[root] == None && index < |a|
             && index in Pre(f, root) && index != root
    requires Stepped(a, f, pool, b, g, pool', ink, root, index) && ListsKept(f, g, index)
    requires TakenOut(a, f, pool, b, g, pool', index) && f.par[index].value < |a| && a[f.par[index].value].body.Branch?
    requires Prunable(a, f, pool, ink, index)
    requires Pruned(b, g, pool', c, h, pool'', ink, root, f.par[index].value, kept)
    requires RemovedAre(b, g, pool', ink, h, f.par[index].value) && KidsAfter(b, g, h)
    requires SpacesPut(b, g, pool', c, h, pool'') && SpacedOut(b, g, c, h, pool'', root)
    requires !IsBlock(a[index].tag) ==> g == Detach(f, index)
    requires kept != f.par[index].value ==> h.par[f.par[index].value] == None
    requires kept == f.par[index].value ==> c == b && h == g && pool'' == pool'
    requires Flanked(a, f, index) ==> NextOf(f, index) < |g.kids| && SpaceBeside(b, g, pool', NextOf(f, index))
    requires if kept == f.par[index].value then
               cursor == RepositionCursor(a[index].prev, a[index].next, f.par[index].value)
             else CursorBeside(g, h, kept, cursor)
    ensures Pruned(a, f, pool, c, h, pool'', ink, root, index, kept) && kept != index && h.par[index] == None
    ensures RemovedAre(a, f, pool, ink, h, index) && KidsAfter(a, f, h)
    ensures SpacesPut(a, f, pool, c, h, pool'') && SpacedOut(a, f, c, h, pool'', root)
    ensures CursorBeside(f, h, kept, cursor)
  {
    KeptIsAbove(a, f, pool, b, g, pool', ink, root, index, kept);
    RemovedUp(a, f, pool, b, g, pool', h, ink, root, index);
    KidsUp(a, f, pool, b, g, pool', h, ink, root, index);
    ClimbStopped(g, h, root, f.par[index].value, kept);
    PutsUp(a, f, pool, b, g, pool', c, h, pool'', ink, root, index);
    SpacedUp(a, f, pool, b, g, pool', c, h, pool'', ink, root, index);
    if kept == f.par[index].value {
      CursorHere(a, f, h, index, cursor);
    } else {
      CursorUp(a, f, pool, b, g, pool', h, ink, root, index, kept, cursor);
    }
    PruneOnward(a, f, pool, b, g, pool', c, h, pool'', ink, root, index, kept);
  }
}
