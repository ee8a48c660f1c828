/**
 The node blob as the program holds it: one byte vector edited in place, slot by slot.

 `doc` is the forest the links spell. The raw setters speak about records only; the tree edits
 keep `Valid()` and say which forest edit they perform.
 */
module Nodes {
  import opened Wrappers
  import opened LittleEndian
  import opened NodeLayout
  import opened Forest
  import opened ForestEdits
  import opened Links

  /** Nine tenths of the two-byte ceiling. */
  const DOWNPACK_MARGIN: nat := 0xFFFF * 9 / 10

  class Nodes {
    var width: Width
    var bytes: Bytes
    ghost var recs: Arena
    ghost var doc: Forest

    /** `recs` is the blob read record by record. */
    ghost predicate Shaped()
      reads this
    {
      Spells(bytes, width, recs)
    }

    function Len(): (n: nat)
      reads this
      ensures Shaped() ==> n == |recs|
    {
      |bytes| / NodeSize(width)
    }

    /** The links spell the forest, and every node number fits under the sentinel. */
    ghost predicate Valid()
      reads this
    {
      Shaped() && Linked(recs, doc) && |recs| <= Sentinel(width)
    }

    /** A document: node 0 exists and is nobody's child. */
    ghost predicate Rooted()
      reads this
    {
      Valid() && Alone(recs, doc)
    }

    // ---- reads ----

    function TagByte(i: nat): (r: byte)
      requires Shaped() && i < |recs|
      reads this
      ensures r == recs[i].tag
    {
      assert RecSpelled(bytes, width, recs, i);
      bytes[Base(width, i)]
    }

    function IsStringNode(i: nat): (r: bool)
      requires Shaped() && i < |recs|
      reads this
      ensures r == recs[i].body.Text?
    {
      assert RecSpelled(bytes, width, recs, i);
      IsStringTag(TagByte(i))
    }

    function ReadLink(i: nat, l: Link): (r: Option<nat>)
      requires Shaped() && i < |recs| && (l.First? || l.Last? ==> recs[i].body.Branch?)
      reads this
      ensures r == GetLink(recs[i], l)
    {
      assert RecSpelled(bytes, width, recs, i);
      SlotInRecord(width, l);
      ReadNodeSlot(bytes, Base(width, i) + Offset(width, l), width)
    }

    function ParentIndex(i: nat): (r: Option<nat>)
      requires Shaped() && i < |recs|
      reads this
      ensures r == recs[i].parent
    {
      ReadLink(i, Parent)
    }

    function PrevSiblingIndex(i: nat): (r: Option<nat>)
      requires Shaped() && i < |recs|
      reads this
      ensures r == recs[i].prev
    {
      ReadLink(i, Prev)
    }

    function NextSiblingIndex(i: nat): (r: Option<nat>)
      requires Shaped() && i < |recs|
      reads this
      ensures r == recs[i].next
    {
      ReadLink(i, Next)
    }

    function FirstChildIndex(i: nat): (r: Option<nat>)
      requires Shaped() && i < |recs|
      reads this
      ensures r == recs[i].FirstChild()
    {
      if IsStringNode(i) then None else ReadLink(i, First)
    }

    function LastChildIndex(i: nat): (r: Option<nat>)
      requires Shaped() && i < |recs|
      reads this
      ensures r == recs[i].LastChild()
    {
      if IsStringNode(i) then None else ReadLink(i, Last)
    }

    function ClassListIndex(i: nat): (r: Option<nat>)
      requires Shaped() && i < |recs|
      reads this
      ensures r == if recs[i].body.Branch? then recs[i].body.cls else None
    {
      assert RecSpelled(bytes, width, recs, i);
      if IsStringNode(i) then None else ReadU16Slot(bytes, Base(width, i) + ClassAt(width))
    }

    function AttrListIndex(i: nat): (r: Option<nat>)
      requires Shaped() && i < |recs|
      reads this
      ensures r == if recs[i].body.Branch? then recs[i].body.attr else None
    {
      assert RecSpelled(bytes, width, recs, i);
      if IsStringNode(i) then None else ReadU16Slot(bytes, Base(width, i) + AttrAt(width))
    }

    method TextRange(i: nat) returns (start: nat, end: nat)
      requires Shaped() && i < |recs| && recs[i].body.Text?
      ensures recs[i].body == Text(start, end)
    {
      assert RecSpelled(bytes, width, recs, i);
      start := ReadU32Slot(bytes, Base(width, i) + TextStartAt(width));
      end := ReadU32Slot(bytes, Base(width, i) + TextEndAt(width));
    }

    // ---- raw writes ----

    method SetNodeAt(i: nat, l: Link, v: Option<nat>)
      requires Shaped() && i < |recs| && LinkOk(v, Sentinel(width))
      requires l.First? || l.Last? ==> recs[i].body.Branch?
      modifies this`bytes, this`recs
      ensures Shaped()
      ensures recs == old(recs)[i := SetLink(old(recs)[i], l, v)]
    {
      assert RecSpelled(bytes, width, recs, i);
      SlotInRecord(width, l);
      var pos := Base(width, i) + Offset(width, l);
      ghost var was := bytes;
      bytes := WriteNodeSlot(bytes, pos, width, v);
      NodeSlotRoundTrip(was, pos, width, v);
      WriteNodeSlotLocal(was, pos, width, v);
      SetLinkBytes(was, bytes, width, recs, i, l, v);
      recs := recs[i := SetLink(recs[i], l, v)];
    }

    method SetParentIndex(i: nat, v: Option<nat>)
      requires Shaped() && i < |recs| && LinkOk(v, Sentinel(width))
      modifies this`bytes, this`recs
      ensures Shaped() && recs == old(recs)[i := old(recs)[i].(parent := v)]
    {
      SetNodeAt(i, Parent, v);
    }

    method SetPrevSiblingIndex(i: nat, v: Option<nat>)
      requires Shaped() && i < |recs| && LinkOk(v, Sentinel(width))
      modifies this`bytes, this`recs
      ensures Shaped() && recs == old(recs)[i := old(recs)[i].(prev := v)]
    {
      SetNodeAt(i, Prev, v);
    }

    method SetNextSiblingIndex(i: nat, v: Option<nat>)
      requires Shaped() && i < |recs| && LinkOk(v, Sentinel(width))
      modifies this`bytes, this`recs
      ensures Shaped() && recs == old(recs)[i := old(recs)[i].(next := v)]
    {
      SetNodeAt(i, Next, v);
    }

    method SetFirstChildIndex(i: nat, v: Option<nat>)
      requires Shaped() && i < |recs| && LinkOk(v, Sentinel(width)) && recs[i].body.Branch?
      modifies this`bytes, this`recs
      ensures Shaped() && recs == old(recs)[i := old(recs)[i].(body := old(recs)[i].body.(first := v))]
    {
      SetNodeAt(i, First, v);
    }

    method SetLastChildIndex(i: nat, v: Option<nat>)
      requires Shaped() && i < |recs| && LinkOk(v, Sentinel(width)) && recs[i].body.Branch?
      modifies this`bytes, this`recs
      ensures Shaped() && recs == old(recs)[i := old(recs)[i].(body := old(recs)[i].body.(last := v))]
    {
      SetNodeAt(i, Last, v);
    }

    method SetU32At(pos: nat, v: nat)
      requires pos + 4 <= |bytes| && v < 0x1_0000_0000
      modifies this`bytes
      ensures ChangedWithin(old(bytes), bytes, pos, pos + 4) && ReadU32Slot(bytes, pos) == v
    {
      WriteU32SlotLocal(bytes, pos, v);
      U32SlotRoundTrip(bytes, pos, v);
      bytes := WriteU32Slot(bytes, pos, v);
    }

    method SetTextRange(i: nat, start: nat, end: nat)
      requires Shaped() && i < |recs| && recs[i].body.Text? && start < 0x1_0000_0000 && end < 0x1_0000_0000
      modifies this`bytes, this`recs
      ensures Shaped() && recs == old(recs)[i := old(recs)[i].(body := Text(start, end))]
    {
      assert RecSpelled(bytes, width, recs, i);
      ghost var was := bytes;
      SetU32At(Base(width, i) + TextStartAt(width), start);
      ghost var mid := bytes;
      SetU32At(Base(width, i) + TextEndAt(width), end);
      TextWritten(was, mid, bytes, Base(width, i) + TextStartAt(width), start, end);
      SetTextBytes(was, bytes, width, recs, i, start, end);
      recs := recs[i := recs[i].(body := Text(start, end))];
    }

    method SetClassListIndex(i: nat, v: Option<nat>)
      requires Shaped() && i < |recs| && recs[i].body.Branch? && LinkOk(v, 0xFFFF)
      modifies this`bytes, this`recs
      ensures Shaped() && recs == old(recs)[i := old(recs)[i].(body := old(recs)[i].body.(cls := v))]
    {
      assert RecSpelled(bytes, width, recs, i);
      ghost var was := bytes;
      var pos := Base(width, i) + ClassAt(width);
      bytes := WriteU16Slot(bytes, pos, v);
      WriteU16SlotLocal(was, pos, v);
      U16SlotRoundTrip(was, pos, v);
      SetStoreBytes(was, bytes, width, recs, i);
      recs := recs[i := recs[i].(body := recs[i].body.(cls := v))];
    }

    method SetAttrListIndex(i: nat, v: Option<nat>)
      requires Shaped() && i < |recs| && recs[i].body.Branch? && LinkOk(v, 0xFFFF)
      modifies this`bytes, this`recs
      ensures Shaped() && recs == old(recs)[i := old(recs)[i].(body := old(recs)[i].body.(attr := v))]
    {
      assert RecSpelled(bytes, width, recs, i);
      ghost var was := bytes;
      var pos := Base(width, i) + AttrAt(width);
      bytes := WriteU16Slot(bytes, pos, v);
      WriteU16SlotLocal(was, pos, v);
      U16SlotRoundTrip(was, pos, v);
      SetStoreBytes(was, bytes, width, recs, i);
      recs := recs[i := recs[i].(body := recs[i].body.(attr := v))];
    }

    /** Appends a zeroed record and fills it slot by slot; a full document is refused by the caller. */
    method AddNodeByte(tag: byte, parent: Option<nat>, prev: Option<nat>, next: Option<nat>) returns (n: nat)
      requires Shaped() && |recs| < Sentinel(width)
      requires LinkOk(parent, Sentinel(width)) && LinkOk(prev, Sentinel(width)) && LinkOk(next, Sentinel(width))
      modifies this`bytes, this`recs
      ensures Shaped() && n == old(|recs|) && recs == old(recs) + [Blank(tag, parent, prev, next)]
    {
      n := Len();
      ghost var before := recs;
      AppendZeroed(tag);
      SetParentIndex(n, parent);
      SetPrevSiblingIndex(n, prev);
      SetNextSiblingIndex(n, next);
      assert recs[..n] == before;
      if IsStringTag(tag) {
        SetTextRange(n, 0, 0);
        assert recs[n] == Blank(tag, parent, prev, next);
      } else {
        SetFirstChildIndex(n, None);
        SetLastChildIndex(n, None);
        SetClassListIndex(n, None);
        SetAttrListIndex(n, None);
        assert recs[n] == Blank(tag, parent, prev, next);
      }
      assert recs[..n] == before;
    }

    method AppendZeroed(tag: byte)
      requires Shaped()
      modifies this`bytes, this`recs
      ensures Shaped() && |recs| == old(|recs|) + 1 && recs[..old(|recs|)] == old(recs)
      ensures recs[old(|recs|)].tag == tag && recs[old(|recs|)].body.Text? == IsStringTag(tag)
    {
      ghost var was := bytes;
      var stride: Bytes := seq(NodeSize(width), _ => 0);
      stride := stride[0 := tag];
      bytes := bytes + stride;
      AppendRecord(was, stride, width, recs);
      recs := recs + [RecFrom(bytes, width, |was|)];
    }

    // ---- tree edits ----

    /** The payload of every old node is untouched and the new one is blank. */
    ghost predicate GrewBy(was: Arena, n: nat, tag: byte)
      reads this
    {
      && n == |was| && |recs| == n + 1 && SamePayloads(was, recs)
      && Payload(recs[n]) == Blank(tag, None, None, None)
    }

    /** Ghost bookkeeping after the links of a new child number `k` of `p` are all in place. */
    ghost method Adopt(was: Arena, p: nat, k: nat, tag: byte)
      requires Shaped() && Linked(was, doc) && |was| < Sentinel(width)
      requires p < |was| && was[p].body.Branch? && k <= |doc.kids[p]|
      requires var ks := doc.kids[p];
               var l, r := Left(ks, k), if k < |ks| then Some(ks[k]) else None;
               var s, n := was + [Blank(tag, Some(p), l, r)], Some(|was|);
               LinkOk(l, |was|) && LinkOk(r, |was|) && Distinct(l, None, r, p)
               && (recs == PointRight(PointLeft(s, p, l, n), p, r, n)
                  || recs == PointLeft(PointRight(s, p, r, n), p, l, n))
      modifies this`doc
      ensures Valid() && doc == AddLeaf(old(doc), p, k) && GrewBy(was, |was|, tag)
      ensures Alone(was, old(doc)) ==> Rooted()
    {
      var ks := doc.kids[p];
      InsertPatch(was, recs, p, Left(ks, k), if k < |ks| then Some(ks[k]) else None, tag);
      InsertLinked(was, recs, doc, p, k);
      if Alone(was, doc) { InsertAlone(was, recs, doc, p, k); }
      doc := AddLeaf(doc, p, k);
    }

    method AddAsNextSibling(i: nat, tag: byte) returns (n: nat)
      requires Valid() && |recs| < Sentinel(width) && Attached(doc, i)
      modifies this`bytes, this`recs, this`doc
      ensures Valid() && GrewBy(old(recs), n, tag) && (old(Rooted()) ==> Rooted())
      ensures var p := old(doc).par[i].value;
              doc == AddLeaf(old(doc), p, IndexOf(old(doc).kids[p], i) + 1)
    {
      ghost var a := recs;
      Neighbours(a, doc, i);
      var p := ParentIndex(i).value;
      var next := NextSiblingIndex(i);
      var parentLast := LastChildIndex(p);
      ghost var k := IndexOf(doc.kids[p], i);
      assert Left(doc.kids[p], k + 1) == Some(i);
      n := AddNodeByte(tag, Some(p), Some(i), next);
      PointAfter(i, n, p, next, parentLast);
      Adopt(a, p, k + 1, tag);
    }

    /** Whatever follows `i`, a sibling or the parent's end, comes to follow `n`, which follows `i`. */
    method PointAfter(i: nat, n: nat, p: nat, next: Option<nat>, parentLast: Option<nat>)
      requires Shaped() && i < |recs| && p < |recs| && n < |recs| <= Sentinel(width) && recs[p].body.Branch?
      requires LinkOk(next, |recs|) && (parentLast == Some(i) <==> next == None) && Distinct(Some(i), None, next, p)
      modifies this`bytes, this`recs
      ensures Shaped() && recs == PointRight(PointLeft(old(recs), p, Some(i), Some(n)), p, next, Some(n))
    {
      SetNextSiblingIndex(i, Some(n));
      if next.Some? { SetPrevSiblingIndex(next.value, Some(n)); }
      if parentLast == Some(i) { SetLastChildIndex(p, Some(n)); }
    }

    method AddAsPrevSibling(i: nat, tag: byte) returns (n: nat)
      requires Valid() && |recs| < Sentinel(width) && Attached(doc, i)
      modifies this`bytes, this`recs, this`doc
      ensures Valid() && GrewBy(old(recs), n, tag) && (old(Rooted()) ==> Rooted())
      ensures var p := old(doc).par[i].value; doc == AddLeaf(old(doc), p, IndexOf(old(doc).kids[p], i))
    {
      ghost var a := recs;
      Neighbours(a, doc, i);
      var p := ParentIndex(i).value;
      var prev := PrevSiblingIndex(i);
      var parentFirst := FirstChildIndex(p);
      n := AddNodeByte(tag, Some(p), prev, Some(i));
      SetPrevSiblingIndex(i, Some(n));
      if prev.Some? { SetNextSiblingIndex(prev.value, Some(n)); }
      if parentFirst == Some(i) { SetFirstChildIndex(p, Some(n)); }
      Adopt(a, p, IndexOf(doc.kids[p], i), tag);
    }

    method AddAsFirstChild(i: nat, tag: byte) returns (n: nat)
      requires Valid() && |recs| < Sentinel(width) && i < |recs| && recs[i].body.Branch?
      modifies this`bytes, this`recs, this`doc
      ensures Valid() && GrewBy(old(recs), n, tag) && doc == AddLeaf(old(doc), i, 0) && (old(Rooted()) ==> Rooted())
    {
      ghost var a := recs;
      EndChildren(a, doc, i);
      var next := FirstChildIndex(i);
      n := AddNodeByte(tag, Some(i), None, next);
      if next.Some? { SetPrevSiblingIndex(next.value, Some(n)); }
      if next.None? { SetLastChildIndex(i, Some(n)); }
      SetFirstChildIndex(i, Some(n));
      Adopt(a, i, 0, tag);
    }

    method AddAsLastChild(i: nat, tag: byte) returns (n: nat)
      requires Valid() && |recs| < Sentinel(width) && i < |recs| && recs[i].body.Branch?
      modifies this`bytes, this`recs, this`doc
      ensures Valid() && GrewBy(old(recs), n, tag) && doc == AddLeaf(old(doc), i, |old(doc).kids[i]|)
              && (old(Rooted()) ==> Rooted())
    {
      ghost var a := recs;
      EndChildren(a, doc, i);
      var prev := LastChildIndex(i);
      n := AddNodeByte(tag, Some(i), prev, None);
      if prev.Some? { SetNextSiblingIndex(prev.value, Some(n)); } else { SetFirstChildIndex(i, Some(n)); }
      SetLastChildIndex(i, Some(n));
      Adopt(a, i, |doc.kids[i]|, tag);
    }

    method RemoveChildren(i: nat)
      requires Valid() && i < |recs| && recs[i].body.Branch?
      modifies this`bytes, this`recs, this`doc
      ensures Valid() && doc == ClearKids(old(doc), i) && SamePayloads(old(recs), recs) && |recs| == old(|recs|)
      ensures old(Rooted()) ==> Rooted()
    {
      ghost var a := recs;
      SetFirstChildIndex(i, None);
      SetLastChildIndex(i, None);
      ClearLinked(a, recs, doc, i);
      doc := ClearKids(doc, i);
    }

    /**
     Takes `i` out of its parent's list. `i` keeps its own sibling links and its subtree. Returns
     the node the cursor moves to: the previous sibling, else the next one, else the parent.
     */
    method Remove(i: nat) returns (cursor: nat)
      requires Valid() && Attached(doc, i)
      modifies this`bytes, this`recs, this`doc
      ensures Valid() && doc == Detach(old(doc), i) && SamePayloads(old(recs), recs) && |recs| == old(|recs|)
      ensures old(Rooted()) ==> Rooted()
      ensures recs[i].prev == old(recs[i].prev) && recs[i].next == old(recs[i].next)
      ensures Some(cursor) == if recs[i].prev.Some? then recs[i].prev
                              else if recs[i].next.Some? then recs[i].next else old(doc).par[i]
    {
      ghost var a := recs;
      Neighbours(a, doc, i);
      var prev := PrevSiblingIndex(i);
      var next := NextSiblingIndex(i);
      var p := ParentIndex(i).value;
      var parentFirst := FirstChildIndex(p);
      var parentLast := LastChildIndex(p);
      assert RecOk(a[i], |a|);
      SetParentIndex(i, None);
      if parentFirst == Some(i) { SetFirstChildIndex(p, next); }
      if parentLast == Some(i) { SetLastChildIndex(p, prev); }
      cursor := Unthread(p, prev, next);
      RemovePatch(a, recs, i, p, prev, next);
      RemoveLinked(a, recs, doc, i);
      if Alone(a, doc) { RemoveAlone(a, recs, doc, i); }
      doc := Detach(doc, i);
    }

    /** The neighbours of a removed node come to point at each other; `p`'s ends are written once more. */
    method Unthread(p: nat, prev: Option<nat>, next: Option<nat>) returns (cursor: nat)
      requires Shaped() && p < |recs| <= Sentinel(width) && recs[p].body.Branch?
      requires LinkOk(prev, |recs|) && LinkOk(next, |recs|) && Distinct(prev, None, next, p)
      requires (prev.None? ==> recs[p].body.first == next) && (next.None? ==> recs[p].body.last == prev)
      modifies this`bytes, this`recs
      ensures Shaped() && recs == PointRight(PointLeft(old(recs), p, prev, next), p, next, prev)
      ensures Some(cursor) == if prev.Some? then prev else if next.Some? then next else Some(p)
    {
      if prev.Some? {
        if next.Some? {
          SetNextSiblingIndex(prev.value, next);
          SetPrevSiblingIndex(next.value, prev);
        } else {
          SetNextSiblingIndex(prev.value, None);
          SetLastChildIndex(p, prev);
        }
        cursor := prev.value;
      } else if next.Some? {
        SetPrevSiblingIndex(next.value, None);
        SetFirstChildIndex(p, next);
        cursor := next.value;
      } else {
        cursor := p;
      }
    }

    method Join(prev: nat, next: nat)
      requires Shaped() && prev < |recs| && next < |recs| && |recs| <= Sentinel(width)
      modifies this`bytes, this`recs
      ensures Shaped() && recs == JoinedPair(old(recs), prev, next)
    {
      SetPrevSiblingIndex(next, Some(prev));
      SetNextSiblingIndex(prev, Some(next));
    }

    static function JoinedPair(a: Arena, prev: nat, next: nat): Arena
      requires prev < |a| && next < |a|
    {
      var t := a[next := a[next].(prev := Some(prev))];
      t[prev := t[prev].(next := Some(next))]
    }

    /** Walks right along the sibling links from `first`, giving every node met the parent `p`. */
    method UpdateChildrenParent(first: nat, p: nat, ghost chain: Ids)
      requires Shaped() && p < |recs| <= Sentinel(width) && chain != [] && chain[0] == first
      requires NextSpells(recs, chain)
      modifies this`bytes, this`recs
      ensures Shaped() && recs == Adopted(old(recs), chain, p)
    {
      var current := first;
      ghost var a, j := recs, 0;
      while true
        invariant 0 <= j < |chain| && current == chain[j]
        invariant Shaped() && recs == Adopted(a, chain[..j], p)
        decreases |chain| - j
      {
        SetParentIndex(current, Some(p));
        assert chain[..j + 1] == chain[..j] + [current];
        assert recs == Adopted(a, chain[..j + 1], p);
        var sibling := NextSiblingIndex(current);
        assert sibling == a[chain[j]].next == Right(chain, j);
        if sibling.Some? {
          current := sibling.value;
          j := j + 1;
        } else {
          assert chain[..j + 1] == chain;
          break;
        }
      }
    }

    /** Closes the gap an empty unwrapped node leaves between `prev` and `next` below `p`. */
    method CloseGap(p: nat, prev: Option<nat>, next: Option<nat>)
      requires Shaped() && p < |recs| <= Sentinel(width) && recs[p].body.Branch?
      requires LinkOk(prev, |recs|) && LinkOk(next, |recs|) && Distinct(prev, None, next, p)
      modifies this`bytes, this`recs
      ensures Shaped() && recs == PointRight(PointLeft(old(recs), p, prev, next), p, next, prev)
    {
      match (prev, next) {
        case (Some(prev), None) =>
          SetLastChildIndex(p, Some(prev));
          SetNextSiblingIndex(prev, None);
        case (None, Some(next)) =>
          SetFirstChildIndex(p, Some(next));
          SetPrevSiblingIndex(next, None);
        case (Some(prev), Some(next)) =>
          Join(prev, next);
        case (None, None) =>
          SetFirstChildIndex(p, None);
          SetLastChildIndex(p, None);
      }
    }

    /** Puts the children from `first` to `last` between `prev` and `next` below `p`. */
    method FillGap(p: nat, prev: Option<nat>, next: Option<nat>, first: nat, last: nat, ghost cs: Ids)
      requires Shaped() && p < |recs| <= Sentinel(width) && recs[p].body.Branch?
      requires LinkOk(prev, |recs|) && LinkOk(next, |recs|) && Distinct(prev, None, next, p)
      requires cs != [] && first == cs[0] < |recs| && last == cs[|cs| - 1] < |recs| && p !in cs
      requires (prev.Some? ==> prev.value !in cs) && (next.Some? ==> next.value !in cs)
      requires recs[first].prev == None && recs[last].next == None
      modifies this`bytes, this`recs
      ensures Shaped() && recs == JoinEnds(PointRight(PointLeft(old(recs), p, prev, Some(first)), p, next, Some(last)),
              cs, prev, next)
    {
      match (prev, next) {
        case (None, None) =>
          SetFirstChildIndex(p, Some(first));
          SetLastChildIndex(p, Some(last));
        case (None, Some(next)) =>
          SetFirstChildIndex(p, Some(first));
          Join(last, next);
        case (Some(prev), None) =>
          Join(prev, first);
          SetLastChildIndex(p, Some(last));
        case (Some(prev), Some(next)) =>
          Join(prev, first);
          Join(last, next);
      }
    }

    method ClearLinks(i: nat)
      requires Shaped() && i < |recs| && recs[i].body.Branch?
      modifies this`bytes, this`recs
      ensures Shaped() && recs == Blanked(old(recs), i)
    {
      SetPrevSiblingIndex(i, None);
      SetNextSiblingIndex(i, None);
      SetFirstChildIndex(i, None);
      SetLastChildIndex(i, None);
      SetParentIndex(i, None);
    }

    /** Replaces `i` by its children, in place; returns the first of them, if any. */
    method UnwrapNode(i: nat) returns (r: Option<nat>)
      requires Valid() && Attached(doc, i) && recs[i].body.Branch?
      modifies this`bytes, this`recs, this`doc
      ensures Valid() && doc == Splice(old(doc), i) && SamePayloads(old(recs), recs) && |recs| == old(|recs|)
      ensures old(Rooted()) ==> Rooted()
      ensures r == Head(old(doc).kids[i])
    {
      ghost var a, f := recs, doc;
      UnwrapFacts(a, f, i);
      var prev := PrevSiblingIndex(i);
      var next := NextSiblingIndex(i);
      var p := ParentIndex(i).value;
      var first := FirstChildIndex(i);
      var last := LastChildIndex(i);
      ClearLinks(i);
      if first.None? {
        CloseGap(p, prev, next);
      } else {
        FillGap(p, prev, next, first.value, last.value, f.kids[i]);
        UnwrapWalk(a, f, i);
        UpdateChildrenParent(first.value, p, UnwrapList(f, i));
      }
      UnwrapDone(a, recs, f, i);
      doc := Splice(doc, i);
      r := first;
    }

    /** Writes the links between `x` and its new neighbours `prev` and `next` below `p`. */
    method LinkBetween(x: nat, p: nat, prev: Option<nat>, next: Option<nat>)
      requires Shaped() && p < |recs| <= Sentinel(width) && x < |recs| && recs[p].body.Branch?
      requires LinkOk(prev, |recs|) && LinkOk(next, |recs|) && Distinct(prev, Some(x), next, p)
      modifies this`bytes, this`recs
      ensures Shaped()
      ensures var s := PointRight(PointLeft(old(recs), p, prev, Some(x)), p, next, Some(x));
              recs == s[x := s[x].(prev := prev, next := next)]
    {
      match (prev, next) {
        case (Some(l), Some(r)) =>
          SetNextSiblingIndex(l, Some(x));
          SetPrevSiblingIndex(x, prev);
          SetNextSiblingIndex(x, next);
          SetPrevSiblingIndex(r, Some(x));
        case (Some(l), None) =>
          SetNextSiblingIndex(l, Some(x));
          SetPrevSiblingIndex(x, prev);
          SetNextSiblingIndex(x, None);
          SetLastChildIndex(p, Some(x));
        case (None, Some(r)) =>
          SetFirstChildIndex(p, Some(x));
          SetPrevSiblingIndex(x, None);
          SetNextSiblingIndex(x, next);
          SetPrevSiblingIndex(r, Some(x));
        case (None, None) =>
          SetFirstChildIndex(p, Some(x));
          SetPrevSiblingIndex(x, None);
          SetNextSiblingIndex(x, None);
          SetLastChildIndex(p, Some(x));
      }
    }

    /**
     Moves `x` (with its subtree) into `i`'s place and leaves `i` loose. The links around `i` are
     read only after `x` has been unlinked, so an adjacent `x`, or one below `i`, works too.
     */
    method ReplaceWith(i: nat, x: nat)
      requires Valid() && Attached(doc, i) && Attached(doc, x) && i !in Pre(doc, x)
      modifies this`bytes, this`recs, this`doc
      ensures Valid() && doc == Replace(old(doc), i, x) && SamePayloads(old(recs), recs) && |recs| == old(|recs|)
      ensures old(Rooted()) ==> Rooted()
      ensures recs[i].parent == None && recs[i].prev == None && recs[i].next == None
    {
      ghost var a, f := recs, doc;
      AttachedIsPlaced(a, f, x);
      Bypass(x);
      ghost var b := recs[x := recs[x].(parent := None)];
      ReplaceHalfway(a, b, f, i, x);
      Relink(i, x);
      ReplaceDone(b, recs, f, i, x);
      doc := Replace(f, i, x);
    }

    method Bypass(x: nat)
      requires Shaped() && Placed(recs, x) && |recs| <= Sentinel(width)
      modifies this`bytes, this`recs
      ensures Shaped() && recs == Bypassed(old(recs), x)
    {
      var q := ParentIndex(x).value;
      var prev := PrevSiblingIndex(x);
      var next := NextSiblingIndex(x);
      CloseGap(q, prev, next);
    }

    /** The target's own links play no part in what its neighbours come to point at. */
    static lemma Exchanged(a: Arena, s: Arena, i: nat, x: nat, p: nat, prev: Option<nat>, next: Option<nat>)
      requires TargetOk(a, i, x) && a[i].parent == Some(p) && prev == a[i].prev && next == a[i].next
      requires s == PointRight(PointLeft(a, p, prev, Some(x)), p, next, Some(x))
      ensures var b := a[x := a[x].(parent := None)]; var t :=
              PointRight(PointLeft(b, p, prev, Some(x)), p, next, Some(x));
              t[x := t[x].(parent := Some(p), prev := prev, next := next)][i :=
                  t[i].(parent := None, prev := None, next := None)]
              == s[x := s[x].(parent := Some(p), prev := prev, next := next)][i :=
                  s[i].(parent := None, prev := None, next := None)]
    {
    }

    method Relink(i: nat, x: nat)
      requires Shaped() && TargetOk(recs, i, x) && |recs| <= Sentinel(width)
      modifies this`bytes, this`recs
      ensures Shaped() && |recs| == |old(recs)|
      ensures recs[i].parent == None && recs[i].prev == None && recs[i].next == None
      ensures var b := old(recs)[x := old(recs)[x].(parent := None)];
              TargetOk(b, i, x) && recs == Relinked(b, i, x)
    {
      var p := ParentIndex(i).value;
      var prev := PrevSiblingIndex(i);
      var next := NextSiblingIndex(i);
      LinkBetween(x, p, prev, next);
      ghost var s := PointRight(PointLeft(old(recs), p, prev, Some(x)), p, next, Some(x));
      SetParentIndex(x, Some(p));
      assert recs == s[x := s[x].(parent := Some(p), prev := prev, next := next)];
      SetParentIndex(i, None);
      SetPrevSiblingIndex(i, None);
      SetNextSiblingIndex(i, None);
      Exchanged(old(recs), s, i, x, p, prev, next);
    }

    // ---- building and packing ----

    /** A fresh three-byte-wide document holding only the root. */
    constructor New()
      ensures Rooted() && width == U24 && recs == [Blank(SYS_ROOT, None, None, None)]
              && doc == Forest([None], [[]], [0], 0)
    {
      width, bytes, recs := U24, [], [];
      new;
      var root := AddNodeByte(SYS_ROOT, None, None, None);
      doc := Forest([None], [[]], [0], 0);
    }

    /** An empty three-byte-wide blob, to be filled record by record. */
    constructor Empty()
      ensures Shaped() && width == U24 && recs == []
    {
      width, bytes, recs := U24, [], [];
    }

    /** Every record rewritten at width `dst`, slot by slot, into a zeroed buffer. */
    method Repack(dst: Width) returns (out: Bytes)
      requires Shaped()
      ensures |out| == Base(dst, |recs|)
      ensures Spells(out, dst, recs) <==> forall i :: 0 <= i < |recs| ==> RecFits(recs[i], Sentinel(dst))
    {
      var n := Len();
      out := seq(Base(dst, n), _ => 0);
      for i := 0 to n
        invariant |out| == Base(dst, n)
        invariant Packing(out, dst, recs, i)
      {
        assert RecSpelled(bytes, width, recs, i);
        RecordEndsInside(dst, i, n);
        SourceFits(bytes, width, Base(width, i));
        ghost var was := out;
        out := PutRecord(out, dst, Base(dst, i), RecFrom(bytes, width, Base(width, i)));
        PackedOneMore(was, out, dst, recs, i);
      }
      if Spells(out, dst, recs) {
        forall i | 0 <= i < |recs| ensures RecFits(recs[i], Sentinel(dst)) {
          assert RecSpelled(out, dst, recs, i);
        }
      }
    }

    /** Down-packs a document of at most 58,981 nodes; every record reads back the same. */
    method IntoOptimalWidth()
      requires Valid()
      modifies this`width, this`bytes
      ensures Valid()
      ensures width == if old(width).U24? && |recs| <= DOWNPACK_MARGIN then U16 else old(width)
    {
      if width.U24? && Len() <= DOWNPACK_MARGIN {
        var packed := Repack(U16);
        forall i | 0 <= i < |recs| ensures RecFits(recs[i], Sentinel(U16)) {
          assert RecOk(recs[i], |recs|);
        }
        width, bytes := U16, packed;
      }
    }
  }
}
