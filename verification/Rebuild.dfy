/**
 Rebuilding a document: the live nodes are copied into a fresh blob in document order, their links
 renumbered, their texts pushed one after the other into a fresh pool, and their class, attribute
 and extended-name references sent through the compacted stores.
 */
module Rebuild {
  import opened Wrappers
  import opened LittleEndian
  import opened NodeLayout
  import opened Forest
  import opened ForestEdits
  import opened Links
  import opened Nodes
  import opened Contiguous
  import opened TextBlocks
  import opened Dom
  import opened Walk
  import opened Renumber
  import E = ExtTags

  // ---- the compacted stores ----

  /**
   What compacting a run store answers: where a run went, where a value went, and what the runs and
   the values say before and after.
   */
  datatype Compaction = Compaction(run: nat -> Option<nat>, value: nat -> Option<nat>,
                                   before: nat -> seq<string>, after: nat -> seq<string>,
                                   nameBefore: nat -> string, nameAfter: nat -> string)

  /** The value `v` is kept and says the same. */
  predicate SameName(c: Compaction, v: nat) {
    c.value(v).Some? && c.nameAfter(c.value(v).value) == c.nameBefore(v)
  }

  /**
   Every run marked used is kept, fits a slot, and says the same, and no other run is kept; every value
   marked is kept and says the same.
   */
  ghost predicate Keeps(c: Compaction, runs: set<nat>, values: set<nat>) {
    && (forall i :: i !in runs ==> c.run(i) == None)
    && (forall i :: i in runs ==> c.run(i).Some? && c.run(i).value < 0xFFFF && c.after(c.run(i).value) == c.before(i))
    && (forall v :: v in values ==> SameName(c, v))
  }

  type Compactor = (set<nat>, set<nat>) -> Compaction

  ghost predicate Reliable(compact: Compactor) {
    forall runs, values :: (forall i :: i in runs ==> i < 0xFFFF) ==> Keeps(compact(runs, values), runs, values)
  }

  /** A compaction that moves nothing. */
  function Still(runs: set<nat>, before: nat -> seq<string>, names: nat -> string): Compaction {
    Compaction(i => if i in runs then Some(i) else None, v => Some(v), before, before, names, names)
  }

  /** Such compactors exist, whatever the stores say. */
  lemma SomeCompactorIsReliable(before: nat -> seq<string>, names: nat -> string) returns (compact: Compactor)
    ensures compact == ((runs: set<nat>, _: set<nat>) => Still(runs, before, names)) && Reliable(compact)
  {
    compact := (runs, _) => Still(runs, before, names);
    assert Reliable(compact);
  }

  // ---- the texts, in document order ----

  /** The text of node `x`, if it has any. */
  function TextAt(a: Arena, pool: Bytes, x: nat): Bytes {
    if x < |a| && a[x].body.Text? && TextIn(a, |pool|, x) then TextOf(a, pool, x) else []
  }

  function Texts(a: Arena, pool: Bytes, order: Ids): (texts: seq<Bytes>)
    ensures |texts| == |order| && forall k :: 0 <= k < |order| ==> texts[k] == TextAt(a, pool, order[k])
  {
    seq(|order|, k requires 0 <= k < |order| => TextAt(a, pool, order[k]))
  }

  /** The first `k` texts, one after the other. */
  function Flat(texts: seq<Bytes>, k: nat): Bytes
    requires k <= |texts|
  {
    if k == 0 then [] else Flat(texts, k - 1) + texts[k - 1]
  }

  lemma {:induction false} FlatGrows(texts: seq<Bytes>, j: nat, k: nat)
    requires j <= k <= |texts|
    ensures Flat(texts, j) <= Flat(texts, k)
  {
    if j < k {
      FlatGrows(texts, j, k - 1);
      var p, q, t := Flat(texts, j), Flat(texts, k - 1), texts[k - 1];
      assert Flat(texts, k) == q + t;
      assert (q + t)[..|p|] == q[..|p|] == p;
    }
  }

  /** Each text is found again where it was put. */
  lemma FlatSlice(texts: seq<Bytes>, k: nat)
    requires k < |texts|
    ensures |Flat(texts, k)| <= |Flat(texts, k + 1)| <= |Flat(texts, |texts|)|
    ensures Flat(texts, |texts|)[|Flat(texts, k)|..|Flat(texts, k + 1)|] == texts[k]
  {
    var lo, hi, all, t := Flat(texts, k), Flat(texts, k + 1), Flat(texts, |texts|), texts[k];
    FlatGrows(texts, k + 1, |texts|);
    assert hi == lo + t;
    assert all[|lo|..|hi|] == hi[|lo|..] == t;
  }

  /** The texts of the first `k` nodes of `order`, one after the other. */
  function TextUpTo(a: Arena, pool: Bytes, order: Ids, k: nat): Bytes
    requires k <= |order|
  {
    Flat(Texts(a, pool, order), k)
  }

  // ---- live texts fit the old pool ----

  lemma {:induction false} Interval(lo: nat, hi: nat) returns (s: set<nat>)
    requires lo <= hi
    ensures |s| == hi - lo && forall p :: p in s <==> lo <= p < hi
    decreases hi
  {
    if lo == hi {
      s := {};
    } else {
      s := Interval(lo, hi - 1);
      s := s + {hi - 1};
    }
  }

  /** Pool position `p` belongs to the text of node `x`. */
  predicate InText(a: Arena, x: nat, p: nat) {
    x < |a| && a[x].body.Text? && a[x].body.start <= p < a[x].body.end
  }

  /** Pool position `p` belongs to the texts of `seen` or to none. */
  ghost predicate TakenBy(a: Arena, seen: Ids, p: nat) {
    forall x :: InText(a, x, p) ==> x in seen
  }

  function TextTotal(a: Arena, pool: Bytes, seen: Ids): nat {
    if seen == [] then 0 else TextTotal(a, pool, seen[..|seen| - 1]) + |TextAt(a, pool, seen[|seen| - 1])|
  }

  lemma {:induction false} TotalOf(a: Arena, pool: Bytes, order: Ids, k: nat)
    requires k <= |order|
    ensures |TextUpTo(a, pool, order, k)| == TextTotal(a, pool, order[..k])
  {
    if k > 0 {
      TotalOf(a, pool, order, k - 1);
      assert order[..k][..k - 1] == order[..k - 1];
    }
  }

  /** The texts of different nodes take up different positions, so together no more than there are. */
  lemma {:induction false} TextPositions(a: Arena, pool: Bytes, seen: Ids) returns (taken: set<nat>)
    requires TextsOk(a, |pool|) && NoDup(seen)
    ensures |taken| == TextTotal(a, pool, seen)
    ensures forall p :: p in taken ==> p < |pool| && TakenBy(a, seen, p)
  {
    if seen == [] {
      taken := {};
    } else {
      var others, x := seen[..|seen| - 1], seen[|seen| - 1];
      var before := TextPositions(a, pool, others);
      var mine := MyPositions(a, pool, x);
      assert seen == others + [x];
      PositionsAdded(a, others, x, before, mine);
      taken := before + mine;
    }
  }

  lemma MyPositions(a: Arena, pool: Bytes, x: nat) returns (mine: set<nat>)
    requires TextsOk(a, |pool|)
    ensures |mine| == |TextAt(a, pool, x)| && forall p :: p in mine ==> p < |pool| && InText(a, x, p)
  {
    mine := {};
    if x < |a| && a[x].body.Text? {
      assert TextIn(a, |pool|, x);
      mine := Interval(a[x].body.start, a[x].body.end);
    }
  }

  lemma PositionsAdded(a: Arena, seen: Ids, x: nat, before: set<nat>, mine: set<nat>)
    requires TextsApart(a) && x !in seen
    requires forall p :: p in before ==> TakenBy(a, seen, p)
    requires forall p :: p in mine ==> InText(a, x, p)
    ensures before !! mine && forall p :: p in before + mine ==> TakenBy(a, seen + [x], p)
  {
    forall p | p in before ensures p !in mine {
      assert TakenBy(a, seen, p);
    }
    forall p | p in mine ensures TakenBy(a, seen + [x], p) {
      forall y | InText(a, y, p) ensures y == x {
        assert NonEmptyText(a, x) && NonEmptyText(a, y);
      }
    }
  }

  /** The live texts, laid out anew, are no longer than the pool they come from. */
  lemma TextsFit(a: Arena, pool: Bytes, order: Ids, k: nat)
    requires TextsOk(a, |pool|) && NoDup(order) && k <= |order|
    ensures |TextUpTo(a, pool, order, k)| <= |pool|
  {
    TotalOf(a, pool, order, k);
    var taken := TextPositions(a, pool, order[..k]);
    var all := Interval(0, |pool|);
    assert all == taken + (all - taken);
  }

  // ---- one record ----

  /** Where a store slot leads after compaction. */
  function Reslot(c: Compaction, v: Option<nat>): Option<nat> {
    if v.None? then None else c.run(v.value)
  }

  /** The root is tagged as one, no live node is marked deleted, and every extended tag byte has its name. */
  ghost predicate Transferable(a: Arena, f: Forest, tags: E.ExtTags)
    requires Tidy(f) && 0 < |f.kids| && 0 < |a|
  {
    E.Sound(tags) && a[0].tag == SYS_ROOT && forall x :: x in Pre(f, 0) && x < |a| ==>
        a[x].tag != SYS_DELETED && (a[x].tag >= E.EXT_BASE ==> HasName(tags, x, a[x].tag))
  }

  /** The document as the two passes read it. */
  ghost predicate Live(a: Arena, f: Forest, n: nat, tags: E.ExtTags) {
    && Linked(a, f) && Alone(a, f) && TextsOk(a, n) && Transferable(a, f, tags)
    && (forall i :: 0 <= i < |a| ==> PayloadFits(a[i]))
  }

  lemma DocumentIsLive(dom: DomInner, tags: E.ExtTags)
    requires dom.Valid() && Transferable(dom.nodes.recs, dom.nodes.doc, tags)
    ensures Live(dom.nodes.recs, dom.nodes.doc, |dom.strings|, tags)
  {
    forall i | 0 <= i < |dom.nodes.recs| ensures PayloadFits(dom.nodes.recs[i]) {
      assert RecSpelled(dom.nodes.bytes, dom.nodes.width, dom.nodes.recs, i);
      SourceFits(dom.nodes.bytes, dom.nodes.width, Base(dom.nodes.width, i));
    }
  }

  ghost predicate HasName(tags: E.ExtTags, x: nat, b: byte) {
    exists s :: E.Names(tags, x, b, s)
  }

  /** The runs and names that live nodes use, as the first pass marks them; the root is not asked. */
  datatype Marks = Marks(classes: set<nat>, attrs: set<nat>, names: set<nat>)

  ghost predicate Marked(a: Arena, tags: E.ExtTags, m: Marks, x: nat)
    requires x < |a|
  {
    && (a[x].body.Branch? && a[x].body.cls.Some? ==> a[x].body.cls.value in m.classes)
    && (a[x].body.Branch? && a[x].body.attr.Some? ==> a[x].body.attr.value in m.attrs)
    && (a[x].tag >= E.EXT_BASE ==> forall s :: E.Names(tags, x, a[x].tag, s) ==> s in m.names)
  }

  function ClassRun(a: Arena, x: nat): set<nat>
    requires x < |a|
  {
    if a[x].body.Branch? && a[x].body.cls.Some? then {a[x].body.cls.value} else {}
  }

  function AttrRun(a: Arena, x: nat): set<nat>
    requires x < |a|
  {
    if a[x].body.Branch? && a[x].body.attr.Some? then {a[x].body.attr.value} else {}
  }

  /** The class runs that nodes of `order` other than the root name. */
  function ClassRuns(a: Arena, order: Ids): set<nat> {
    set x, i | x in order && 0 < x < |a| && i in ClassRun(a, x) :: i
  }

  function AttrRuns(a: Arena, order: Ids): set<nat> {
    set x, i | x in order && 0 < x < |a| && i in AttrRun(a, x) :: i
  }

  /** Some node of `order` other than the root has the extended name `s`. */
  ghost predicate NamedIn(a: Arena, tags: E.ExtTags, order: Ids, s: nat) {
    exists x :: x in order && 0 < x < |a| && a[x].tag >= E.EXT_BASE && E.Names(tags, x, a[x].tag, s)
  }

  /** The names marked for one node more. */
  ghost predicate NamesAdded(a: Arena, tags: E.ExtTags, x: nat, names: set<nat>, more: set<nat>)
    requires x < |a|
  {
    names <= more && forall s :: s in more ==> s in names || (a[x].tag >= E.EXT_BASE && E.Names(tags, x, a[x].tag, s))
  }

  /** `r` is `m` and what node `x` uses. */
  ghost predicate MarkedToo(a: Arena, tags: E.ExtTags, m: Marks, x: nat, r: Marks)
    requires x < |a|
  {
    && Marked(a, tags, r, x) && NamesAdded(a, tags, x, m.names, r.names)
    && r.classes == m.classes + ClassRun(a, x) && r.attrs == m.attrs + AttrRun(a, x)
  }

  lemma NamesOneMore(a: Arena, tags: E.ExtTags, seen: Ids, x: nat, names: set<nat>, more: set<nat>)
    requires 0 < x < |a| && NamesAdded(a, tags, x, names, more)
    requires forall s :: s in names ==> NamedIn(a, tags, seen, s)
    ensures forall s :: s in more ==> NamedIn(a, tags, seen + [x], s)
  {
    forall s | s in more ensures NamedIn(a, tags, seen + [x], s) {
      if s in names {
        var y :| y in seen && 0 < y < |a| && a[y].tag >= E.EXT_BASE && E.Names(tags, y, a[y].tag, s);
        assert y in seen + [x];
      } else {
        assert x in seen + [x];
      }
    }
  }

  lemma RunsOneMore(a: Arena, seen: Ids, x: nat)
    requires 0 < x < |a|
    ensures ClassRuns(a, seen + [x]) == ClassRuns(a, seen) + ClassRun(a, x)
    ensures AttrRuns(a, seen + [x]) == AttrRuns(a, seen) + AttrRun(a, x)
  {
  }

  /** The tag of the copy: a standard byte is kept, an extended one stands for the same spelled name. */
  ghost predicate SameTag(a: Arena, tags: E.ExtTags, c: Compaction, x: nat, b: byte, tags': E.ExtTags, k: nat)
    requires x < |a|
  {
    if a[x].tag < E.EXT_BASE then b == a[x].tag
    else forall s :: E.Names(tags, x, a[x].tag, s) ==> SameName(c, s) && E.Names(tags', k, b, c.value(s).value)
  }

  /** The payload of the copy of node `x` at `k`: store references moved, text in its place in the pool. */
  ghost predicate SameBody(a: Arena, pool: Bytes, order: Ids, cls: Compaction, attr: Compaction, k: nat, r: Rec)
    requires k < |order| && order[k] < |a|
  {
    match a[order[k]].body
    case Branch(_, _, c, t) => r.body.Branch? && r.body.cls == Reslot(cls, c) && r.body.attr == Reslot(attr, t)
    case Text(_, _) => r.body == Text(|TextUpTo(a, pool, order, k)|, |TextUpTo(a, pool, order, k + 1)|)
  }

  // ---- first pass ----

  ghost predicate Paired(pairs: seq<(nat, nat)>, order: Ids) {
    |pairs| == |order| && forall k :: 0 <= k < |order| ==> pairs[k] == (k, order[k])
  }

  /** The first `|seen|` nodes of the document have been numbered and paired, and all but the root marked. */
  ghost predicate Progress(a: Arena, f: Forest, tags: E.ExtTags, ix: Table, pairs: seq<(nat, nat)>, marks: Marks,
      seen: Ids)
  {
    && |ix| == |a| && Numbering(ix, seen) && Paired(pairs, seen)
    && AllMarked(a, tags, marks, seen) && SlotSized(marks)
  }

  /** Exactly what the nodes seen use, the root left out, is marked. */
  ghost predicate AllMarked(a: Arena, tags: E.ExtTags, marks: Marks, seen: Ids) {
    && (forall x :: x in seen && 0 < x < |a| ==> Marked(a, tags, marks, x))
    && marks.classes == ClassRuns(a, seen) && marks.attrs == AttrRuns(a, seen)
    && (forall s :: s in marks.names ==> NamedIn(a, tags, seen, s))
  }

  ghost predicate SlotSized(m: Marks) {
    forall i :: i in m.classes || i in m.attrs ==> i < 0xFFFF
  }

  lemma ProgressStep(a: Arena, f: Forest, tags: E.ExtTags, ix: Table, pairs: seq<(nat, nat)>, marks: Marks, seen: Ids,
      x: nat, more: Marks, order: Ids)
    requires Progress(a, f, tags, ix, pairs, marks, seen) && NoDup(order)
    requires |seen| < |order| && seen == order[..|seen|] && order[|seen|] == x < |a|
    requires x > 0 && SlotSized(more) && MarkedToo(a, tags, marks, x, more)
    ensures Progress(a, f, tags, ix[x := Some(|pairs|)], pairs + [(|pairs|, x)], more, seen + [x])
  {
    NumberNext(ix, seen, x, order);
    RunsOneMore(a, seen, x);
    NamesOneMore(a, tags, seen, x, marks.names, more.names);
    forall y | y in seen + [x] && 0 < y < |a| ensures Marked(a, tags, more, y) {
      if y != x { assert Marked(a, tags, marks, y); }
    }
  }

  /**
   Walks the document, numbering the nodes in the order met and marking what they use. The walk does
   not visit the root, which gets its number beforehand and no marks.
   */
  method Number(nodes: Nodes, tags: E.ExtTags, ghost n: nat) returns (ix: Table, pairs: seq<(nat, nat)>, marks: Marks)
    requires nodes.Rooted() && Live(nodes.recs, nodes.doc, n, tags)
    ensures Covers(nodes.doc, ix) && Progress(nodes.recs, nodes.doc, tags, ix, pairs, marks, Pre(nodes.doc, 0))
  {
    ghost var a, f := nodes.recs, nodes.doc;
    ghost var order := Pre(f, 0);
    PreNoDup(f, 0);
    ix, pairs := seq(nodes.Len(), _ => None), [(0, 0)];
    ix := ix[0 := Some(0)];
    marks := Marks({}, {}, {});
    var stack: Ids := [0];
    ghost var seen: Ids := [0];
    ProgressStart(a, f, tags, ix, pairs, marks, n);
    while true
      invariant OnPath(f, stack) && order == seen + Ahead(f, stack)
      invariant Progress(a, f, tags, ix, pairs, marks, seen) && seen != []
      decreases |Ahead(f, stack)|
    {
      var next, rest := FindNext(nodes, stack);
      if next.None? {
        assert order == seen;
        return;
      }
      var x := next.value;
      NextInOrder(f, 0, order, seen, x, Ahead(f, rest));
      assert seen[0] == order[0] == 0 && order[|seen|] == x;
      var more := Mark(nodes, tags, x, marks, n);
      ProgressStep(a, f, tags, ix, pairs, marks, seen, x, more, order);
      ix := ix[x := Some(|pairs|)];
      pairs := pairs + [(|pairs|, x)];
      marks, stack, seen := more, rest, seen + [x];
    }
  }

  lemma ProgressStart(a: Arena, f: Forest, tags: E.ExtTags, ix: Table, pairs: seq<(nat, nat)>, marks: Marks, n: nat)
    requires Live(a, f, n, tags) && |ix| == |a| && ix[0] == Some(0) && forall i :: 0 < i < |ix| ==> ix[i] == None
    requires pairs == [(0, 0)] && marks == Marks({}, {}, {})
    ensures Progress(a, f, tags, ix, pairs, marks, [0])
    ensures OnPath(f, [0]) && Pre(f, 0) == [0] + Ahead(f, [0])
  {
  }

  lemma NumberNext(ix: Table, seen: Ids, x: nat, order: Ids)
    requires Numbering(ix, seen) && NoDup(order) && x < |ix|
    requires |seen| < |order| && seen == order[..|seen|] && order[|seen|] == x
    ensures Numbering(ix[x := Some(|seen|)], seen + [x])
  {
    assert forall k :: 0 <= k < |seen| ==> seen[k] == order[k] != x;
  }

  /** Marks what one node uses: its class run, its attribute run and its extended name. */
  method Mark(nodes: Nodes, tags: E.ExtTags, x: nat, m: Marks, ghost n: nat) returns (r: Marks)
    requires nodes.Rooted() && Live(nodes.recs, nodes.doc, n, tags) && x in Pre(nodes.doc, 0) && x < |nodes.recs|
    requires SlotSized(m)
    ensures SlotSized(r) && MarkedToo(nodes.recs, tags, m, x, r)
  {
    r := m;
    assert PayloadFits(nodes.recs[x]);
    var attr := nodes.AttrListIndex(x);
    if attr.Some? { r := r.(attrs := r.attrs + {attr.value}); }
    var cls := nodes.ClassListIndex(x);
    if cls.Some? { r := r.(classes := r.classes + {cls.value}); }
    var b := nodes.TagByte(x);
    if b >= E.EXT_BASE {
      ghost var s :| E.Names(tags, x, b, s);
      var sym := E.SymAt(tags, x, b, s);
      forall s' | E.Names(tags, x, b, s') ensures s' == s { E.OneName(tags, x, b, s, s'); }
      r := r.(names := r.names + {sym});
    }
  }

  // ---- second pass ----

  function CopiedElement(a: Arena, ix: Table, x: nat, b: byte, cls: Compaction, attr: Compaction): Rec
    requires x < |a| == |ix| && RecOk(a[x], |a|) && a[x].body.Branch?
  {
    Rec(b, Move(ix, a[x].parent), Move(ix, a[x].prev), Move(ix, a[x].next),
        Branch(Move(ix, a[x].body.first), Move(ix, a[x].body.last), Reslot(cls, a[x].body.cls),
            Reslot(attr, a[x].body.attr)))
  }

  function CopiedText(a: Arena, ix: Table, x: nat, start: nat, end: nat): Rec
    requires x < |a| == |ix| && RecOk(a[x], |a|)
  {
    Rec(a[x].tag, Move(ix, a[x].parent), Move(ix, a[x].prev), Move(ix, a[x].next), Text(start, end))
  }

  ghost predicate Bounded(ix: Table, n: nat) {
    forall i :: 0 <= i < |ix| ==> LinkOk(ix[i], n)
  }

  /** The class and attribute runs of `x`, renumbered, into the empty slots of `n`. */
  method PutRuns(src: Nodes, out: Nodes, n: nat, x: nat, cls: Compaction, attr: Compaction)
    requires src != out && src.Shaped() && out.Shaped() && n < |out.recs| && x < |src.recs|
    requires src.recs[x].body.Branch? && out.recs[n].body.Branch? && out.recs[n].body.cls == None
             && out.recs[n].body.attr == None
    requires LinkOk(Reslot(cls, src.recs[x].body.cls), 0xFFFF) && LinkOk(Reslot(attr, src.recs[x].body.attr), 0xFFFF)
    modifies out`bytes, out`recs
    ensures out.Shaped() && |out.recs| == |old(out.recs)|
    ensures out.recs == old(out.recs)[n := old(out.recs)[n].(body := old(out.recs)[n].body.(
              cls := Reslot(cls, src.recs[x].body.cls), attr := Reslot(attr, src.recs[x].body.attr)))]
  {
    var c := src.ClassListIndex(x);
    if c.Some? { out.SetClassListIndex(n, cls.run(c.value)); }
    var t := src.AttrListIndex(x);
    if t.Some? { out.SetAttrListIndex(n, attr.run(t.value)); }
  }

  method CopyElement(src: Nodes, out: Nodes, ix: Table, x: nat, b: byte, cls: Compaction, attr: Compaction)
    requires src != out && src.Shaped() && out.Shaped() && |out.recs| < Sentinel(out.width)
    requires x < |src.recs| == |ix| && RecOk(src.recs[x], |src.recs|) && src.recs[x].body.Branch? && !IsStringTag(b)
    requires Bounded(ix, Sentinel(out.width))
    requires LinkOk(Reslot(cls, src.recs[x].body.cls), 0xFFFF) && LinkOk(Reslot(attr, src.recs[x].body.attr), 0xFFFF)
    modifies out`bytes, out`recs
    ensures out.Shaped() && out.recs == old(out.recs) + [CopiedElement(src.recs, ix, x, b, cls, attr)]
  {
    ghost var was := out.recs;
    var n := out.AddNodeByte(b, Move(ix, src.ParentIndex(x)), Move(ix, src.PrevSiblingIndex(x)),
        Move(ix, src.NextSiblingIndex(x)));
    out.SetFirstChildIndex(n, Move(ix, src.FirstChildIndex(x)));
    out.SetLastChildIndex(n, Move(ix, src.LastChildIndex(x)));
    PutRuns(src, out, n, x, cls, attr);
    assert out.recs[n] == CopiedElement(src.recs, ix, x, b, cls, attr);
    assert out.recs[..n] == was;
  }

  method CopyText(src: Nodes, out: Nodes, ix: Table, x: nat, start: nat, end: nat)
    requires src != out && src.Shaped() && out.Shaped() && |out.recs| < Sentinel(out.width)
    requires x < |src.recs| == |ix| && RecOk(src.recs[x], |src.recs|) && src.recs[x].body.Text?
             && IsStringTag(src.recs[x].tag)
    requires Bounded(ix, Sentinel(out.width)) && start < U32 && end < U32
    modifies out`bytes, out`recs
    ensures out.Shaped() && out.recs == old(out.recs) + [CopiedText(src.recs, ix, x, start, end)]
  {
    ghost var was := out.recs;
    var n := out.AddNodeByte(src.TagByte(x), Move(ix, src.ParentIndex(x)), Move(ix, src.PrevSiblingIndex(x)),
        Move(ix, src.NextSiblingIndex(x)));
    out.SetTextRange(n, start, end);
    assert out.recs[n] == CopiedText(src.recs, ix, x, start, end);
    assert out.recs[..n] == was;
  }

  /** Everything the second pass reads: the document, its names, and the numbering of the first pass. */
  datatype Source = Source(a: Arena, f: Forest, pool: Bytes, tags: E.ExtTags, ix: Table, cls: Compaction,
    attr: Compaction)

  ghost predicate Ready(s: Source, m: Marks) {
    && Live(s.a, s.f, |s.pool|, s.tags) && Covers(s.f, s.ix)
    && AllMarked(s.a, s.tags, m, Pre(s.f, 0))
    && Keeps(s.cls, m.classes, m.names) && Keeps(s.attr, m.attrs, {})
  }

  lemma ReadyAt(s: Source, m: Marks, k: nat)
    requires Ready(s, m) && k < |Pre(s.f, 0)|
    ensures var x := Pre(s.f, 0)[k];
            && x in Pre(s.f, 0) && x < |s.a| && RecOk(s.a[x], |s.a|) && TextIn(s.a, |s.pool|, x)
               && s.a[x].tag != SYS_DELETED
            && PayloadFits(s.a[x]) && (x > 0 ==> Marked(s.a, s.tags, m, x)) && (k > 0 ==> x > 0) && Pre(s.f, 0)[0] == 0
            && s.a[0].tag == SYS_ROOT
            && (s.a[x].body.Branch? ==>
               LinkOk(Reslot(s.cls, s.a[x].body.cls), 0xFFFF) && LinkOk(Reslot(s.attr, s.a[x].body.attr), 0xFFFF))
            && (s.a[x].tag >= E.EXT_BASE ==> HasName(s.tags, x, s.a[x].tag))
  {
    MovedReady(s.a, s.f, s.ix, k);
    PreNoDup(s.f, 0);
    assert PayloadFits(s.a[Pre(s.f, 0)[k]]) && Pre(s.f, 0)[0] == 0;
  }

  /** Record `k` of `b` is the copy of the `k`-th node of the document. */
  ghost predicate CopiedAt(s: Source, m: Marks, b: Arena, tags': E.ExtTags, k: nat)
    requires Ready(s, m) && k < |b| && k < |Pre(s.f, 0)|
  {
    ReadyAt(s, m, k);
    && MovedAt(s.a, s.ix, Pre(s.f, 0)[k], b, k) && SameBody(s.a, s.pool, Pre(s.f, 0), s.cls, s.attr, k, b[k])
    && SameTag(s.a, s.tags, s.cls, Pre(s.f, 0)[k], b[k].tag, tags', k)
  }

  ghost predicate CopiedUpTo(s: Source, m: Marks, b: Arena, tags': E.ExtTags)
    requires Ready(s, m)
  {
    && |b| <= |Pre(s.f, 0)| && E.Sound(tags') && E.Before(tags', |b|)
    && forall k :: 0 <= k < |b| ==> CopiedAt(s, m, b, tags', k)
  }

  /** One more record, and perhaps one more extended name, leave the earlier copies as they were. */
  lemma CopyOne(s: Source, m: Marks, b: Arena, tags': E.ExtTags, r: Rec, more: E.ExtTags)
    requires Ready(s, m) && CopiedUpTo(s, m, b, tags') && |b| < |Pre(s.f, 0)|
    requires E.Sound(more) && E.Before(more, |b| + 1) && forall n, c, y :: E.Names(tags', n, c, y) ==>
             E.Names(more, n, c, y)
    requires CopiedAt(s, m, b + [r], more, |b|)
    ensures CopiedUpTo(s, m, b + [r], more)
  {
    forall k | 0 <= k < |b| ensures CopiedAt(s, m, b + [r], more, k) {
      assert CopiedAt(s, m, b, tags', k);
      CopyStays(s, m, b, tags', r, more, k);
    }
  }

  lemma CopyStays(s: Source, m: Marks, b: Arena, tags': E.ExtTags, r: Rec, more: E.ExtTags, k: nat)
    requires Ready(s, m) && k < |b| < |Pre(s.f, 0)| && CopiedAt(s, m, b, tags', k)
    requires forall n, c, y :: E.Names(tags', n, c, y) ==> E.Names(more, n, c, y)
    ensures CopiedAt(s, m, b + [r], more, k)
  {
    ReadyAt(s, m, k);
  }

  /** The byte for the copy of node `x`: re-encoded against the fresh vocabulary if extended. */
  method NewByte(src: Nodes, tags: E.ExtTags, x: nat, cls: Compaction, fresh': E.ExtTags, k: nat, ghost m: Marks)
      returns (b: byte, more: E.ExtTags)
    requires src.Shaped() && x < |src.recs| && E.Sound(tags) && E.Sound(fresh') && E.Before(fresh', k)
    requires src.recs[x].tag >= E.EXT_BASE ==> HasName(tags, x, src.recs[x].tag)
    requires (src.recs[x].tag >= E.EXT_BASE ==> Marked(src.recs, tags, m, x)) && Keeps(cls, m.classes, m.names)
    ensures E.Sound(more) && E.Before(more, k + 1) && forall n, c, y :: E.Names(fresh', n, c, y) ==>
            E.Names(more, n, c, y)
    ensures SameTag(src.recs, tags, cls, x, b, more, k)
    ensures src.recs[x].tag < E.EXT_BASE ==> b == src.recs[x].tag
    ensures src.recs[x].tag >= E.EXT_BASE ==> b >= E.EXT_BASE
  {
    b, more := src.TagByte(x), fresh';
    if b >= E.EXT_BASE {
      ghost var s :| E.Names(tags, x, b, s);
      var sym := E.SymAt(tags, x, b, s);
      forall s' | E.Names(tags, x, b, s') ensures s' == sym { E.OneName(tags, x, b, sym, s'); }
      E.EncodeNames(fresh', cls.value(sym).value, k);
      var r := E.Encode(fresh', cls.value(sym).value, k);
      more, b := r.0, r.1;
    }
  }

  /**
   The copies, one by one. A deleted node would stop the program here; `Live` says there is none.
   */
  method CopyAll(src: Nodes, strings: Bytes, tags: E.ExtTags, ix: Table, pairs: seq<(nat, nat)>, cls: Compaction,
      attr: Compaction, ghost m: Marks)
      returns (out: Nodes, pool: Bytes, tags': E.ExtTags)
    requires src.Valid() && Ready(Source(src.recs, src.doc, strings, tags, ix, cls, attr), m)
    requires Paired(pairs, Pre(src.doc, 0))
    requires |strings| < U32
    ensures fresh(out) && out.Shaped() && out.width == U24 && |out.recs| == |pairs|
    ensures CopiedUpTo(Source(src.recs, src.doc, strings, tags, ix, cls, attr), m, out.recs, tags')
    ensures pool == TextUpTo(src.recs, strings, Pre(src.doc, 0), |pairs|) && |pool| <= |strings|
  {
    ghost var s := Source(src.recs, src.doc, strings, tags, ix, cls, attr);
    ghost var order := Pre(src.doc, 0);
    out := new Nodes.Empty();
    pool, tags' := [], E.ExtTags([], []);
    OrderFits(s, m);
    NothingCopied(s, m);
    for k := 0 to |pairs|
      invariant out.Shaped() && out.width == U24 && |out.recs| == k && fresh(out)
      invariant CopiedUpTo(s, m, out.recs, tags')
      invariant pool == TextUpTo(s.a, strings, order, k)
    {
      pool, tags' := CopyNext(src, strings, tags, out, ix, pairs[k].1, k, cls, attr, pool, tags', s, m);
    }
    PoolFits(s, m, |pairs|);
  }

  lemma NothingCopied(s: Source, m: Marks)
    requires Ready(s, m)
    ensures CopiedUpTo(s, m, [], E.ExtTags([], []))
  {
  }

  lemma PoolFits(s: Source, m: Marks, k: nat)
    requires Ready(s, m) && k <= |Pre(s.f, 0)|
    ensures |TextUpTo(s.a, s.pool, Pre(s.f, 0), k)| <= |s.pool|
  {
    PreNoDup(s.f, 0);
    TextsFit(s.a, s.pool, Pre(s.f, 0), k);
  }

  /** The copy of the `k`-th node of the document, an element with tag byte `b`. */
  ghost function CopyOf(s: Source, m: Marks, k: nat, b: byte): Rec
    requires Ready(s, m) && k < |Pre(s.f, 0)|
  {
    ReadyAt(s, m, k);
    var x := Pre(s.f, 0)[k];
    if s.a[x].body.Text? then
      CopiedText(s.a, s.ix, x, |TextUpTo(s.a, s.pool, Pre(s.f, 0), k)|, |TextUpTo(s.a, s.pool, Pre(s.f, 0), k + 1)|)
    else
      CopiedElement(s.a, s.ix, x, b, s.cls, s.attr)
  }

  lemma CopyOfIsCopy(s: Source, m: Marks, was: Arena, more: E.ExtTags, k: nat, b: byte)
    requires Ready(s, m) && k < |Pre(s.f, 0)| && k == |was|
    requires Pre(s.f, 0)[k] < |s.a| && SameTag(s.a, s.tags, s.cls, Pre(s.f, 0)[k], b, more, k)
    requires s.a[Pre(s.f, 0)[k]].tag < E.EXT_BASE ==> b == s.a[Pre(s.f, 0)[k]].tag
    ensures CopiedAt(s, m, was + [CopyOf(s, m, k, b)], more, k)
  {
    ReadyAt(s, m, k);
    assert (was + [CopyOf(s, m, k, b)])[k] == CopyOf(s, m, k, b);
  }

  /** One record written: a string node takes its text along, an element its child links and store slots. */
  method PutCopy(src: Nodes, strings: Bytes, out: Nodes, ix: Table, x: nat, b: byte, cls: Compaction, attr: Compaction,
      pool: Bytes, ghost k: nat, ghost s: Source, ghost m: Marks)
      returns (pool': Bytes)
    requires src != out && src.Shaped() && out.Shaped() && |out.recs| < Sentinel(out.width)
             && Bounded(ix, Sentinel(out.width))
    requires s == Source(src.recs, s.f, strings, s.tags, ix, cls, attr) && Ready(s, m)
    requires k < |Pre(s.f, 0)| && x == Pre(s.f, 0)[k] && x < |src.recs| && (b < E.EXT_BASE ==> b == src.recs[x].tag)
    requires pool == TextUpTo(s.a, strings, Pre(s.f, 0), k) && |TextUpTo(s.a, strings, Pre(s.f, 0), k + 1)| < U32
    modifies out`bytes, out`recs
    ensures out.Shaped() && out.recs == old(out.recs) + [CopyOf(s, m, k, b)]
    ensures pool' == TextUpTo(s.a, strings, Pre(s.f, 0), k + 1)
  {
    ReadyAt(s, m, k);
    pool' := pool;
    if src.IsStringNode(x) {
      var start, end := src.TextRange(x);
      pool' := pool + strings[start..end];
      CopyText(src, out, ix, x, |pool|, |pool'|);
    } else {
      CopyElement(src, out, ix, x, b, cls, attr);
    }
  }

  /** One copy: the byte for its tag, and its record. */
  method CopyNext(src: Nodes, strings: Bytes, tags: E.ExtTags, out: Nodes, ix: Table, x: nat, k: nat, cls: Compaction,
      attr: Compaction, pool: Bytes, fresh': E.ExtTags, ghost s: Source, ghost m: Marks)
      returns (pool': Bytes, more: E.ExtTags)
    requires src != out && src.Shaped() && out.Shaped() && |out.recs| == k < Sentinel(out.width)
             && Bounded(ix, Sentinel(out.width))
    requires s == Source(src.recs, s.f, strings, tags, ix, cls, attr)
    requires Ready(s, m) && CopiedUpTo(s, m, out.recs, fresh') && k < |Pre(s.f, 0)| && x == Pre(s.f, 0)[k]
    requires pool == TextUpTo(s.a, strings, Pre(s.f, 0), k) && |strings| < U32
    modifies out`bytes, out`recs
    ensures out.Shaped() && |out.recs| == k + 1 && CopiedUpTo(s, m, out.recs, more)
    ensures pool' == TextUpTo(s.a, strings, Pre(s.f, 0), k + 1)
  {
    ghost var was := out.recs;
    ReadyAt(s, m, k);
    PoolFits(s, m, k + 1);
    var b;
    b, more := NewByte(src, tags, x, cls, fresh', k, m);
    CopyOfIsCopy(s, m, was, more, k, b);
    CopyOne(s, m, was, fresh', CopyOf(s, m, k, b), more);
    pool' := PutCopy(src, strings, out, ix, x, b, cls, attr, pool, k, s, m);
  }

  lemma OrderFits(s: Source, m: Marks)
    requires Ready(s, m)
    ensures Bounded(s.ix, |s.a|) && |Pre(s.f, 0)| <= |s.a|
  {
    PreNoDup(s.f, 0);
    forall k | 0 <= k < |Pre(s.f, 0)| ensures Pre(s.f, 0)[k] < |s.a| { ReadyAt(s, m, k); }
    Pigeonhole(Pre(s.f, 0), |s.a|);
  }

  lemma {:induction false} Pigeonhole(s: Ids, n: nat)
    requires NoDup(s) && forall k :: 0 <= k < |s| ==> s[k] < n
    ensures |s| <= n
  {
    if s != [] {
      assert s[0] < n;
      if n - 1 in s {
        Pigeonhole(Cut(s, IndexOf(s, n - 1)), n - 1);
      } else {
        forall k | 0 <= k < |s| ensures s[k] < n - 1 { assert s[k] in s; }
        Pigeonhole(s, n - 1);
      }
    }
  }

  // ---- what the rebuilt document is ----

  /** `order` carries the tree `g`, node for node and child for child, onto the tree of `f`. */
  ghost predicate Isomorphic(f: Forest, g: Forest, order: Ids) {
    && |order| == |g.kids| && NoDup(order) && 0 < |order| && order[0] == 0
    && forall k :: 0 <= k < |order| ==> SameChildren(f, g, order, k)
  }

  ghost predicate SameChildren(f: Forest, g: Forest, order: Ids, k: nat)
    requires |order| == |g.kids| && k < |order|
  {
    && order[k] < |f.kids| && |g.kids[k]| == |f.kids[order[k]]|
    && forall j :: 0 <= j < |g.kids[k]| ==> g.kids[k][j] < |order| && order[g.kids[k][j]] == f.kids[order[k]][j]
  }

  lemma RenumberedIsomorphic(f: Forest, ix: Table)
    requires Covers(f, ix)
    ensures Isomorphic(f, Renumbered(f, ix), Pre(f, 0))
  {
    var order := Pre(f, 0);
    PreNoDup(f, 0);
    forall k | 0 <= k < |order| ensures SameChildren(f, Renumbered(f, ix), order, k) {
      RenumberedAt(f, ix, order[k]);
    }
  }

  function TextLen(b: Arena, k: nat): nat
    requires k <= |b|
  {
    if k == 0 then 0
    else TextLen(b, k - 1) + if b[k - 1].body.Text? && b[k - 1].body.start <= b[k - 1].body.end
        then b[k - 1].body.end - b[k - 1].body.start else 0
  }

  /** The text ranges, in record order, tile the pool: each starts where the one before ended. */
  ghost predicate Tiles(b: Arena, n: nat) {
    && TextLen(b, |b|) == n
    && forall k :: 0 <= k < |b| && b[k].body.Text? ==> b[k].body.start == TextLen(b, k) <= b[k].body.end
  }

  /** A copied text takes up exactly the stretch of the new pool its text was pushed to. */
  lemma CopiedStretch(s: Source, m: Marks, b: Arena, tags': E.ExtTags, k: nat)
    requires Ready(s, m) && CopiedUpTo(s, m, b, tags') && k < |b|
    ensures var from, to := |TextUpTo(s.a, s.pool, Pre(s.f, 0), k)|, |TextUpTo(s.a, s.pool, Pre(s.f, 0), k + 1)|;
            from <= to && if b[k].body.Text? then b[k].body == Text(from, to) else from == to
  {
    ReadyAt(s, m, k);
    assert CopiedAt(s, m, b, tags', k);
  }

  /** Stretches laid end to end from 0 tile whatever they cover. */
  lemma {:induction false} EndToEnd(b: Arena, at: seq<nat>, k: nat)
    requires |at| == |b| + 1 && at[0] == 0 && k <= |b|
    requires forall j :: 0 <= j < |b| ==>
               at[j] <= at[j + 1] && if b[j].body.Text? then b[j].body == Text(at[j], at[j + 1]) else at[j] == at[j + 1]
    ensures TextLen(b, k) == at[k]
    ensures forall j :: 0 <= j < k && b[j].body.Text? ==> b[j].body.start == TextLen(b, j) <= b[j].body.end
  {
    if k > 0 { EndToEnd(b, at, k - 1); }
  }

  lemma CopiesTile(s: Source, m: Marks, b: Arena, tags': E.ExtTags)
    requires Ready(s, m) && CopiedUpTo(s, m, b, tags')
    ensures Tiles(b, |TextUpTo(s.a, s.pool, Pre(s.f, 0), |b|)|)
  {
    var order := Pre(s.f, 0);
    var at: seq<nat> := seq(|b| + 1, k requires 0 <= k <= |b| => |TextUpTo(s.a, s.pool, order, k)|);
    forall j | 0 <= j < |b|
      ensures at[j] <= at[j + 1] && if b[j].body.Text? then b[j].body == Text(at[j], at[j + 1]) else at[j] == at[j + 1]
    {
      CopiedStretch(s, m, b, tags', j);
    }
    EndToEnd(b, at, |b|);
  }

  lemma {:induction false} TextLenGrows(b: Arena, j: nat, k: nat)
    requires j <= k <= |b|
    ensures TextLen(b, j) <= TextLen(b, k)
  {
    if j < k { TextLenGrows(b, j, k - 1); }
  }

  /** Tiling ranges lie in the pool and do not overlap. */
  lemma TilesAreApart(b: Arena, n: nat)
    requires Tiles(b, n)
    ensures TextsOk(b, n)
  {
    forall k | 0 <= k < |b| ensures TextIn(b, n, k) { TextLenGrows(b, k + 1, |b|); }
    forall i, j | 0 <= i < j < |b| && NonEmptyText(b, i) && NonEmptyText(b, j)
        ensures Apart(RangeOf(b[i]), RangeOf(b[j])) {
      TextLenGrows(b, i + 1, j);
    }
  }

  /** The copy of a string node reads the same text. */
  lemma SameText(a: Arena, old': Bytes, order: Ids, b: Arena, pool: Bytes, k: nat)
    requires k < |order| && k < |b| && order[k] < |a| && a[order[k]].body.Text? && TextIn(a, |old'|, order[k])
    requires pool == TextUpTo(a, old', order, |order|)
    requires b[k].body == Text(|TextUpTo(a, old', order, k)|, |TextUpTo(a, old', order, k + 1)|)
    ensures TextIn(b, |pool|, k) && TextOf(b, pool, k) == TextOf(a, old', order[k])
  {
    FlatSlice(Texts(a, old', order), k);
  }

  /** A run that was marked says the same after the copy; any other is dropped. */
  predicate RunCopied(c: Compaction, used: set<nat>, v: Option<nat>, v': Option<nat>) {
    if v.Some? && v.value in used then v'.Some? && c.after(v'.value) == c.before(v.value) else v' == None
  }

  /** The root keeps its tag, and of its runs those that another live node names too. */
  ghost predicate RootCopied(s: Source, b: Arena)
    requires 0 < |s.a| && 0 < |b| && Tidy(s.f) && 0 < |s.f.kids|
  {
    b[0].tag == s.a[0].tag &&
    match (s.a[0].body, b[0].body) {
      case (Branch(_, _, c, t), Branch(_, _, c', t')) =>
        RunCopied(s.cls, ClassRuns(s.a, Pre(s.f, 0)), c, c') && RunCopied(s.attr, AttrRuns(s.a, Pre(s.f, 0)), t, t')
      case _ => false
    }
  }

  /** Node `k` of the rebuilt document is node `x` of the old one: tag, text, classes and attributes. */
  ghost predicate SameNode(s: Source, x: nat, b: Arena, pool: Bytes, tags': E.ExtTags, k: nat)
    requires x < |s.a| && k < |b|
  {
    && SameTag(s.a, s.tags, s.cls, x, b[k].tag, tags', k)
    && match (s.a[x].body, b[k].body) {
      case (Branch(_, _, c, t), Branch(_, _, c', t')) =>
        && (c'.Some? <==> c.Some?) && (c.Some? ==> s.cls.after(c'.value) == s.cls.before(c.value))
        && (t'.Some? <==> t.Some?) && (t.Some? ==> s.attr.after(t'.value) == s.attr.before(t.value))
      case (Text(_, _), Text(_, _)) =>
        TextIn(s.a, |s.pool|, x) && TextIn(b, |pool|, k) && TextOf(b, pool, k) == TextOf(s.a, s.pool, x)
      case _ => false
    }
  }

  lemma CopyIsSame(s: Source, m: Marks, b: Arena, tags': E.ExtTags, pool: Bytes, k: nat)
    requires Ready(s, m) && CopiedUpTo(s, m, b, tags') && 0 < k < |b| == |Pre(s.f, 0)|
    requires pool == TextUpTo(s.a, s.pool, Pre(s.f, 0), |b|)
    ensures Pre(s.f, 0)[k] < |s.a| && SameNode(s, Pre(s.f, 0)[k], b, pool, tags', k)
  {
    ReadyAt(s, m, k);
    assert CopiedAt(s, m, b, tags', k);
    if s.a[Pre(s.f, 0)[k]].body.Text? { SameText(s.a, s.pool, Pre(s.f, 0), b, pool, k); }
  }

  lemma RootIsCopied(s: Source, m: Marks, b: Arena, tags': E.ExtTags)
    requires Ready(s, m) && CopiedUpTo(s, m, b, tags') && 0 < |b| && s.a[0].body.Branch?
    ensures RootCopied(s, b)
  {
    ReadyAt(s, m, 0);
    assert CopiedAt(s, m, b, tags', 0);
  }

  /** What the copies are, taken together. */
  lemma AllCopied(s: Source, m: Marks, b: Arena, tags': E.ExtTags, pool: Bytes)
    requires Ready(s, m) && CopiedUpTo(s, m, b, tags') && |b| == |Pre(s.f, 0)| && s.a[0].body.Branch?
    requires pool == TextUpTo(s.a, s.pool, Pre(s.f, 0), |b|)
    ensures Linked(b, Renumbered(s.f, s.ix)) && Alone(b, Renumbered(s.f, s.ix)) && TextsOk(b, |pool|)
            && Tiles(b, |pool|)
    ensures IsContiguous(Renumbered(s.f, s.ix)) && Isomorphic(s.f, Renumbered(s.f, s.ix), Pre(s.f, 0))
    ensures forall k :: 0 < k < |b| ==> Pre(s.f, 0)[k] < |s.a| && SameNode(s, Pre(s.f, 0)[k], b, pool, tags', k)
    ensures |b| > 0 && RootCopied(s, b) && |b| <= |s.a|
    ensures IsContiguous(s.f) && Tiles(s.a, |s.pool|) ==>
              Renumbered(s.f, s.ix) == s.f && pool == s.pool && SameLinksAndRanges(s.a, b)
  {
    Copied(s, m, b, tags', pool);
    RootIsCopied(s, m, b, tags');
    CopiedAgain(s, m, b, tags', pool);
    OrderFits(s, m);
  }

  /** The copies, and the document they make. */
  method SecondPass(src: Nodes, strings: Bytes, tags: E.ExtTags, ix: Table, pairs: seq<(nat, nat)>, cls: Compaction,
      attr: Compaction, ghost s: Source, ghost m: Marks)
      returns (out: DomInner, tags': E.ExtTags)
    requires src.Valid() && s == Source(src.recs, src.doc, strings, tags, ix, cls, attr) && Ready(s, m)
    requires Paired(pairs, Pre(src.doc, 0)) && |strings| < U32 && s.a[0].body.Branch?
    ensures fresh(out) && fresh(out.nodes) && out.Valid() && out.nodes.width == U24
    ensures out.nodes.doc == Renumbered(s.f, s.ix) && E.Sound(tags')
    ensures IsContiguous(out.nodes.doc) && Isomorphic(s.f, out.nodes.doc, Pre(s.f, 0))
    ensures forall k :: 0 < k < |out.nodes.recs| ==>
              Pre(s.f, 0)[k] < |s.a| && SameNode(s, Pre(s.f, 0)[k], out.nodes.recs, out.strings, tags', k)
    ensures |out.nodes.recs| > 0 && RootCopied(s, out.nodes.recs) && Tiles(out.nodes.recs, |out.strings|)
    ensures IsContiguous(s.f) && Tiles(s.a, |s.pool|) ==>
              out.nodes.doc == s.f && out.strings == s.pool && SameLinksAndRanges(s.a, out.nodes.recs)
  {
    var nodes, pool;
    nodes, pool, tags' := CopyAll(src, strings, tags, ix, pairs, cls, attr, m);
    AllCopied(s, m, nodes.recs, tags', pool);
    nodes.doc := Renumbered(s.f, ix);
    out := new DomInner(nodes, pool);
  }

  /**
   Rebuilds the document into a fresh one: isomorphic to the live tree, numbered in document order
   with no dead slot, every node but the root the same node, and the texts laid out one after the
   other. The root loses its class run and its attribute run unless another live node names the same.
   */
  method RebuildDom(dom: DomInner, tags: E.ExtTags, classes: Compactor, attrs: Compactor)
      returns (out: DomInner, tags': E.ExtTags, ghost s: Source, ghost marks: Marks)
    requires dom.Valid() && Transferable(dom.nodes.recs, dom.nodes.doc, tags)
    requires Reliable(classes) && Reliable(attrs)
    ensures fresh(out) && fresh(out.nodes) && out.Valid() && out.nodes.width == U24
    ensures s.a == dom.nodes.recs && s.f == dom.nodes.doc && s.pool == dom.strings && s.tags == tags
    ensures AllMarked(s.a, tags, marks, Pre(s.f, 0))
    ensures s.cls == classes(marks.classes, marks.names) && s.attr == attrs(marks.attrs, {})
    ensures IsContiguous(out.nodes.doc) && Isomorphic(dom.nodes.doc, out.nodes.doc, Pre(dom.nodes.doc, 0))
    ensures Covers(s.f, s.ix) && out.nodes.doc == Renumbered(s.f, s.ix)
    ensures forall k :: 0 < k < |out.nodes.recs| ==>
              Pre(s.f, 0)[k] < |s.a| && SameNode(s, Pre(s.f, 0)[k], out.nodes.recs, out.strings, tags', k)
    ensures |out.nodes.recs| > 0 && RootCopied(s, out.nodes.recs)
    ensures Tiles(out.nodes.recs, |out.strings|) && E.Sound(tags')
    ensures IsContiguous(s.f) && Tiles(s.a, |s.pool|) ==>
              out.nodes.doc == s.f && out.strings == s.pool && SameLinksAndRanges(s.a, out.nodes.recs)
  {
    DocumentIsLive(dom, tags);
    var ix, pairs, used := Number(dom.nodes, tags, |dom.strings|);
    marks := used;
    var cls := classes(used.classes, used.names);
    var attr := attrs(used.attrs, {});
    s := Source(dom.nodes.recs, dom.nodes.doc, dom.strings, tags, ix, cls, attr);
    assert Ready(s, marks);
    assert RecSpelled(dom.nodes.bytes, dom.nodes.width, dom.nodes.recs, 0);
    out, tags' := SecondPass(dom.nodes, dom.strings, tags, ix, pairs, cls, attr, s, marks);
  }

  /** A document of one node, the root, with a class run: rebuilt, the root has none. */
  method RootRunLost(before: nat -> seq<string>, names: nat -> string) returns (dom: DomInner, out: DomInner)
    ensures dom.Valid() && |dom.nodes.recs| == 1 && dom.nodes.recs[0].body.Branch?
    ensures dom.nodes.recs[0].body.cls == Some(0)
    ensures out.Valid() && |out.nodes.recs| == 1 && out.nodes.recs[0].body.Branch? && out.nodes.recs[0].body.cls == None
  {
    var nodes := new Nodes.New();
    nodes.SetClassListIndex(0, Some(0));
    dom := new DomInner(nodes, []);
    var compact: Compactor := (runs, _) => Still(runs, before, names);
    ghost var same := SomeCompactorIsReliable(before, names);
    var tags: E.ExtTags := E.ExtTags([], []);
    assert Pre(nodes.doc, 0) == [0] + PreAll(nodes.doc, 0, []);
    var tags';
    ghost var s, marks;
    out, tags', s, marks := RebuildDom(dom, tags, compact, compact);
  }

  /** Copying a document that is in order already. */
  lemma CopiedAgain(s: Source, m: Marks, b: Arena, tags': E.ExtTags, pool: Bytes)
    requires Ready(s, m) && CopiedUpTo(s, m, b, tags') && |b| == |Pre(s.f, 0)|
    requires pool == TextUpTo(s.a, s.pool, Pre(s.f, 0), |b|)
    ensures IsContiguous(s.f) && Tiles(s.a, |s.pool|) ==>
              Renumbered(s.f, s.ix) == s.f && pool == s.pool && SameLinksAndRanges(s.a, b)
  {
    if IsContiguous(s.f) && Tiles(s.a, |s.pool|) {
      ContiguousNumbering(s.f, s.ix);
      CopiesArePlain(s, m, b, tags');
      RebuildAgain(s.a, s.pool, s.ix, Pre(s.f, 0), b);
    }
  }

  /** The same links and the same text range. */
  predicate SameRecord(x: Rec, y: Rec) {
    && LinksAre(y, x.parent, x.prev, x.next, x.FirstChild(), x.LastChild())
    && (x.body.Text? ==> y.body == x.body)
  }

  ghost predicate SameLinksAndRanges(a: Arena, b: Arena) {
    |a| == |b| && forall k :: 0 <= k < |a| ==> SameRecord(a[k], b[k])
  }

  /** Record `k` of `b` as a copy of `a[order[k]]`: links moved, text pushed. */
  ghost predicate PlainCopy(a: Arena, pool: Bytes, ix: Table, order: Ids, b: Arena, k: nat) {
    && k < |b| && k < |order| && order[k] < |a| == |ix| && RecOk(a[order[k]], |a|) && MovedAt(a, ix, order[k], b, k)
    && b[k].body.Text? == a[order[k]].body.Text?
    && (b[k].body.Text? ==> b[k].body == Text(|TextUpTo(a, pool, order, k)|, |TextUpTo(a, pool, order, k + 1)|))
  }

  lemma CopiesArePlain(s: Source, m: Marks, b: Arena, tags': E.ExtTags)
    requires Ready(s, m) && CopiedUpTo(s, m, b, tags')
    ensures forall k :: 0 <= k < |b| ==> PlainCopy(s.a, s.pool, s.ix, Pre(s.f, 0), b, k)
  {
    forall k | 0 <= k < |b| ensures PlainCopy(s.a, s.pool, s.ix, Pre(s.f, 0), b, k) {
      ReadyAt(s, m, k);
      assert CopiedAt(s, m, b, tags', k);
    }
  }

  ghost predicate InOrder(order: Ids, ix: Table) {
    |order| == |ix| && forall i :: 0 <= i < |ix| ==> order[i] == i && ix[i] == Some(i)
  }

  /** Rebuilding a document whose nodes and texts are already in order changes no link and no range. */
  lemma RebuildAgain(a: Arena, pool: Bytes, ix: Table, order: Ids, b: Arena)
    requires InOrder(order, ix) && Tiles(a, |pool|) && |a| == |b| == |order|
    requires forall k :: 0 <= k < |b| ==> PlainCopy(a, pool, ix, order, b, k)
    ensures TextUpTo(a, pool, order, |b|) == pool && SameLinksAndRanges(a, b)
  {
    TiledText(a, pool, order, |b|);
    forall k | 0 <= k < |b| ensures SameRecord(a[k], b[k]) {
      assert PlainCopy(a, pool, ix, order, b, k);
      AgainAt(a, pool, ix, order, b, k);
    }
  }

  lemma AgainAt(a: Arena, pool: Bytes, ix: Table, order: Ids, b: Arena, k: nat)
    requires InOrder(order, ix) && Tiles(a, |pool|) && k < |a| == |b| == |order| && PlainCopy(a, pool, ix, order, b, k)
    ensures SameRecord(a[k], b[k])
  {
    assert order[k] == k;
    MovedNowhere(a, ix, b, k);
    TiledText(a, pool, order, k);
    TiledText(a, pool, order, k + 1);
  }

  lemma MovedNowhere(a: Arena, ix: Table, b: Arena, k: nat)
    requires k < |a| == |ix| && k < |b| && RecOk(a[k], |a|) && MovedAt(a, ix, k, b, k) && forall i :: 0 <= i < |ix| ==>
             ix[i] == Some(i)
    ensures LinksAre(b[k], a[k].parent, a[k].prev, a[k].next, a[k].FirstChild(), a[k].LastChild())
  {
  }

  /** Text `j` is the slice of the pool from cut `j` to cut `j + 1`. */
  predicate CutOut(texts: seq<Bytes>, pool: Bytes, at: seq<nat>, j: nat)
    requires |at| == |texts| + 1 && j < |texts|
  {
    at[j] <= at[j + 1] <= |pool| && texts[j] == pool[at[j]..at[j + 1]]
  }

  /** Consecutive slices of a pool, put one after the other, give back the pool. */
  lemma {:induction false} FlatTiles(texts: seq<Bytes>, pool: Bytes, at: seq<nat>, k: nat)
    requires |at| == |texts| + 1 && at[0] == 0 && k <= |texts|
    requires forall j :: 0 <= j < |texts| ==> CutOut(texts, pool, at, j)
    ensures at[k] <= |pool| && Flat(texts, k) == pool[..at[k]]
  {
    if k > 0 {
      FlatTiles(texts, pool, at, k - 1);
      assert CutOut(texts, pool, at, k - 1);
      var lo, hi := at[k - 1], at[k];
      assert pool[..lo] + pool[lo..hi] == pool[..hi];
    }
  }

  function TextLens(a: Arena): (at: seq<nat>)
    ensures |at| == |a| + 1 && forall k :: 0 <= k <= |a| ==> at[k] == TextLen(a, k)
  {
    seq(|a| + 1, k requires 0 <= k <= |a| => TextLen(a, k))
  }

  lemma TiledText(a: Arena, pool: Bytes, order: Ids, k: nat)
    requires |order| == |a| && (forall i :: 0 <= i < |order| ==> order[i] == i) && Tiles(a, |pool|) && k <= |a|
    ensures |TextUpTo(a, pool, order, k)| == TextLen(a, k) <= |pool|
    ensures k == |a| ==> TextUpTo(a, pool, order, k) == pool
  {
    forall j | 0 <= j < |a| ensures CutOut(Texts(a, pool, order), pool, TextLens(a), j) {
      TiledAt(a, pool, order, j);
    }
    FlatTiles(Texts(a, pool, order), pool, TextLens(a), k);
    assert pool[..|pool|] == pool;
  }

  lemma TiledAt(a: Arena, pool: Bytes, order: Ids, j: nat)
    requires j < |order| == |a| && order[j] == j && Tiles(a, |pool|)
    ensures CutOut(Texts(a, pool, order), pool, TextLens(a), j)
  {
    TextLenGrows(a, j + 1, |a|);
    assert Texts(a, pool, order)[j] == TextAt(a, pool, j);
  }

  lemma Copied(s: Source, m: Marks, b: Arena, tags': E.ExtTags, pool: Bytes)
    requires Ready(s, m) && CopiedUpTo(s, m, b, tags') && |b| == |Pre(s.f, 0)|
    requires pool == TextUpTo(s.a, s.pool, Pre(s.f, 0), |b|)
    ensures Linked(b, Renumbered(s.f, s.ix)) && Alone(b, Renumbered(s.f, s.ix)) && TextsOk(b, |pool|)
            && Tiles(b, |pool|)
    ensures IsContiguous(Renumbered(s.f, s.ix)) && Isomorphic(s.f, Renumbered(s.f, s.ix), Pre(s.f, 0))
    ensures forall k :: 0 < k < |b| ==> Pre(s.f, 0)[k] < |s.a| && SameNode(s, Pre(s.f, 0)[k], b, pool, tags', k)
  {
    forall k | 0 <= k < |b| ensures (MovedReady(s.a, s.f, s.ix, k); MovedAt(s.a, s.ix, Pre(s.f, 0)[k], b, k)) {
      MovedReady(s.a, s.f, s.ix, k);
      assert CopiedAt(s, m, b, tags', k);
    }
    RenumberLinked(s.a, s.f, s.ix, b);
    RenumberContiguous(s.f, s.ix);
    RenumberedIsomorphic(s.f, s.ix);
    CopiesTile(s, m, b, tags');
    TilesAreApart(b, |pool|);
    forall k | 0 < k < |b| ensures Pre(s.f, 0)[k] < |s.a| && SameNode(s, Pre(s.f, 0)[k], b, pool, tags', k) {
      CopyIsSame(s, m, b, tags', pool, k);
    }
  }
}
