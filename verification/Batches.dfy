/**
 Assembling per-document results into record batches, cut at document boundaries before a column
 passes the size limit. Read back one after the other, the batches are the table that has one row
 per match.
 */
module Batches {
  import opened Wrappers
  import opened LittleEndian
  import opened Columns
  import opened Cutting
  import opened Lists
  import M = Meta

  /** One document's matches: `rows` of them, with its text and attribute columns. */
  datatype Doc = Doc(key: Bytes, rows: nat, pos: nat, text: Option<Chunk>, attrs: seq<(Chunk, seq<bool>)>)

  /** What is asked for: a text column or none, so many attributes, and typed metadata fields. */
  datatype Request = Request(wantText: bool, attrs: nat, types: seq<M.MetaType>,
    metaValue: (nat, nat) -> Option<M.Value>, limit: nat)

  datatype Batch = Batch(rows: nat, key: Col, text: Option<Col>, attrs: seq<Col>, metas: seq<MetaCol>)

  predicate DocOk(q: Request, d: Doc) {
    && d.rows > 0 && d.text.Some? == q.wantText && (d.text.Some? ==> ChunkOk(d.text.value, d.rows))
    && |d.attrs| == q.attrs && forall i :: 0 <= i < |d.attrs| ==> AttrOk(d, i)
  }

  predicate AttrOk(d: Doc, i: nat)
    requires i < |d.attrs|
  {
    ChunkOk(d.attrs[i].0, d.rows) && |d.attrs[i].1| == d.rows
  }

  // ---- the naive table, column by column ----

  /** The parts of all items, one after the other. */
  function Gather<D, C>(items: seq<D>, part: D -> seq<C>): seq<C> {
    if items == [] then [] else part(items[0]) + Gather(items[1..], part)
  }

  function KeyPart(d: Doc): seq<Option<Bytes>> {
    Rep(Some(d.key), d.rows)
  }

  function TextPart(d: Doc): seq<Option<Bytes>> {
    if d.text.Some? && ChunkOk(d.text.value, |d.text.value.ends|) then ChunkCells(d.text.value, None) else []
  }

  function AttrPart(i: nat): (Doc -> seq<Option<Bytes>>) {
    (d: Doc) => if i < |d.attrs| && AttrOk(d, i) then ChunkCells(d.attrs[i].0, Some(d.attrs[i].1)) else []
  }

  /** The document's value if it is one of the column's type, null otherwise. */
  function CellOf(q: Request, pos: nat, i: nat): (cell: Option<M.Value>)
    requires i < |q.types|
    ensures cell.Some? <==> q.metaValue(pos, i).Some? && M.TypeOf(q.metaValue(pos, i).value) == q.types[i]
    ensures cell.Some? ==> cell == q.metaValue(pos, i)
  {
    Typed(q.types[i], q.metaValue(pos, i))
  }

  function MetaPart(q: Request, i: nat): (Doc -> seq<Option<M.Value>>)
    requires i < |q.types|
  {
    (d: Doc) => Rep(CellOf(q, d.pos, i), d.rows)
  }

  lemma {:induction false} GatherConcat<D, C>(s: seq<D>, t: seq<D>, part: D -> seq<C>)
    ensures Gather(s + t, part) == Gather(s, part) + Gather(t, part)
  {
    if s == [] {
      assert s + t == t;
    } else {
      assert (s + t)[1..] == s[1..] + t;
      GatherConcat(s[1..], t, part);
    }
  }

  lemma GatherOne<D, C>(s: seq<D>, d: D, part: D -> seq<C>)
    ensures Gather(s + [d], part) == Gather(s, part) + part(d)
  {
    GatherConcat(s, [d], part);
    assert Gather([d], part) == part(d) + Gather([], part);
  }

  // ---- one batch ----

  predicate BatchOk(q: Request, b: Batch) {
    && ColOk(b.key) && b.key.valid == None && |Cells(b.key)| == b.rows
    && b.text.Some? == q.wantText && (b.text.Some? ==>
       ColOk(b.text.value) && b.text.value.valid == None && |Cells(b.text.value)| == b.rows)
    && |b.attrs| == q.attrs && (forall i :: 0 <= i < |b.attrs| ==> AttrColOk(b, i))
    && |b.metas| == |q.types| && (forall i :: 0 <= i < |b.metas| ==> MetaColOk(q, b, i))
  }

  predicate AttrColOk(b: Batch, i: nat)
    requires i < |b.attrs|
  {
    ColOk(b.attrs[i]) && b.attrs[i].valid.Some? && |Cells(b.attrs[i])| == b.rows
  }

  predicate MetaColOk(q: Request, b: Batch, i: nat)
    requires i < |b.metas| && i < |q.types|
  {
    MetaOk(b.metas[i]) && TypeOfMeta(b.metas[i]) == q.types[i] && |MetaCells(b.metas[i])| == b.rows
  }

  // ---- what documents add to a column's data ----

  /** What the documents come to, each by its own measure. */
  function Total(ds: seq<Doc>, size: Doc -> nat): nat {
    if ds == [] then 0 else Total(ds[..|ds| - 1], size) + size(ds[|ds| - 1])
  }

  function KeySize(d: Doc): nat {
    Times(|d.key|, d.rows)
  }

  function TextSize(d: Doc): nat {
    if d.text.Some? then |d.text.value.data| else 0
  }

  function AttrSize(i: nat): (Doc -> nat) {
    (d: Doc) => if i < |d.attrs| then |d.attrs[i].0.data| else 0
  }

  /** In string field `i` a document's own value, on each of its rows. */
  function MetaSize(q: Request, i: nat): (Doc -> nat) {
    (d: Doc) => StrLen(q.metaValue(d.pos, i), d.rows)
  }

  lemma TotalOne(ds: seq<Doc>, d: Doc, size: Doc -> nat)
    ensures Total(ds + [d], size) == Total(ds, size) + size(d)
  {
    assert (ds + [d])[..|ds|] == ds;
  }

  /** The batch holds exactly the rows of `ds`, in every column, and each column's data is what they add up to. */
  ghost predicate Holds(q: Request, b: Batch, ds: seq<Doc>) {
    && BatchOk(q, b) && Cells(b.key) == Gather(ds, KeyPart) && |b.key.data| == Total(ds, KeySize)
    && (b.text.Some? ==>
       Cells(b.text.value) == Gather(ds, TextPart) && |b.text.value.data| == Total(ds, TextSize))
    && (forall i :: 0 <= i < |b.attrs| ==> AttrHolds(b, ds, i))
    && (forall i :: 0 <= i < |b.metas| ==> MetaHolds(q, b, ds, i))
  }

  ghost predicate AttrHolds(b: Batch, ds: seq<Doc>, i: nat)
    requires i < |b.attrs|
  {
    && AttrColOk(b, i) && Cells(b.attrs[i]) == Gather(ds, AttrPart(i))
    && |b.attrs[i].data| == Total(ds, AttrSize(i))
  }

  ghost predicate MetaHolds(q: Request, b: Batch, ds: seq<Doc>, i: nat)
    requires i < |b.metas| && i < |q.types|
  {
    && MetaColOk(q, b, i) && MetaCells(b.metas[i]) == Gather(ds, MetaPart(q, i))
    && (b.metas[i].StrCol? ==> |b.metas[i].col.data| == Total(ds, MetaSize(q, i)))
  }

  function EmptyBatch(q: Request): Batch {
    Batch(0, NewCol(false), if q.wantText then Some(NewCol(false)) else None, seq(q.attrs, _ => NewCol(true)),
          seq(|q.types|, i requires 0 <= i < |q.types| => NewMetaCol(q.types[i])))
  }

  lemma EmptyHolds(q: Request)
    ensures Holds(q, EmptyBatch(q), [])
  {
    var b := EmptyBatch(q);
    forall i | 0 <= i < |b.attrs| ensures AttrHolds(b, [], i) { assert Cells(b.attrs[i]) == []; }
    forall i | 0 <= i < |b.metas| ensures MetaHolds(q, b, [], i) {
      assert MetaCells(b.metas[i]) == [];
    }
    assert Cells(b.key) == [];
  }

  // ---- appending a document ----

  /** Column `i` of `attrs` has taken the document's attribute `i`. */
  ghost predicate AttrTaken(was: Col, now: Col, d: Doc, i: nat) {
    && i < |d.attrs| && AttrOk(d, i) && ColOk(was) && ColOk(now) && now.valid.Some?
    && Cells(now) == Cells(was) + AttrPart(i)(d) && |now.data| == |was.data| + |d.attrs[i].0.data|
  }

  method AppendAttrs(q: Request, attrs: seq<Col>, d: Doc) returns (r: Option<seq<Col>>)
    requires DocOk(q, d) && |attrs| == q.attrs && forall i :: 0 <= i < |attrs| ==>
             ColOk(attrs[i]) && attrs[i].valid.Some?
    ensures r.Some? ==> |r.value| == |attrs| && forall i :: 0 <= i < |attrs| ==> AttrTaken(attrs[i], r.value[i], d, i)
    ensures r.None? <==> exists i :: 0 <= i < |attrs| && |attrs[i].data| + |d.attrs[i].0.data| >= I32
  {
    var now := attrs;
    for i := 0 to |attrs|
      invariant |now| == |attrs|
      invariant forall k :: 0 <= k < i ==> AttrTaken(attrs[k], now[k], d, k)
      invariant forall k :: i <= k < |attrs| ==> now[k] == attrs[k]
      invariant forall k :: 0 <= k < i ==> |attrs[k].data| + |d.attrs[k].0.data| < I32
    {
      assert AttrOk(d, i);
      var grown := AppendCol(now[i], d.attrs[i].0, Some(d.attrs[i].1));
      if grown.None? {
        return None;
      }
      now := now[i := grown.value];
    }
    return Some(now);
  }

  ghost predicate MetaTaken(q: Request, was: MetaCol, now: MetaCol, d: Doc, i: nat)
    requires i < |q.types|
  {
    && MetaOk(was) && MetaOk(now) && TypeOfMeta(now) == q.types[i]
       && MetaCells(now) == MetaCells(was) + MetaPart(q, i)(d)
    && (now.StrCol? ==> was.StrCol? && |now.col.data| == |was.col.data| + StrLen(q.metaValue(d.pos, i), d.rows))
  }

  /** The document's value of string field `i`, repeated, takes the column past the offset ceiling. */
  predicate MetaFails(q: Request, m: MetaCol, d: Doc, i: nat) {
    var v := q.metaValue(d.pos, i);
    m.StrCol? && v.Some? && v.value.StrVal? && |m.col.data| + Times(|v.value.s|, d.rows) >= I32
  }

  /** Some column of the batch has no room for the document under the offset ceiling. */
  predicate NoRoom(q: Request, b: Batch, d: Doc) {
    || |b.key.data| + Times(|d.key|, d.rows) >= I32
    || (b.text.Some? && d.text.Some? && |b.text.value.data| + |d.text.value.data| >= I32)
    || (exists i :: 0 <= i < |b.attrs| && i < |d.attrs| && |b.attrs[i].data| + |d.attrs[i].0.data| >= I32)
    || (exists i :: 0 <= i < |b.metas| && MetaFails(q, b.metas[i], d, i))
  }

  method AppendMetas(q: Request, metas: seq<MetaCol>, d: Doc) returns (r: Option<seq<MetaCol>>)
    requires |metas| == |q.types| && forall i :: 0 <= i < |metas| ==>
             MetaOk(metas[i]) && TypeOfMeta(metas[i]) == q.types[i]
    ensures r.Some? ==> |r.value| == |metas| && forall i :: 0 <= i < |metas| ==>
            MetaTaken(q, metas[i], r.value[i], d, i)
    ensures r.None? <==> exists i :: 0 <= i < |metas| && MetaFails(q, metas[i], d, i)
  {
    var now := metas;
    for i := 0 to |metas|
      invariant |now| == |metas|
      invariant forall k :: 0 <= k < i ==> MetaTaken(q, metas[k], now[k], d, k)
      invariant forall k :: i <= k < |metas| ==> now[k] == metas[k]
      invariant forall k :: 0 <= k < i ==> !MetaFails(q, metas[k], d, k)
    {
      var grown := AppendMeta(now[i], q.metaValue(d.pos, i), d.rows);
      if grown.None? {
        assert MetaFails(q, metas[i], d, i);
        return None;
      }
      now := now[i := grown.value];
    }
    return Some(now);
  }

  /** All columns of one document appended; fails exactly when a column would pass the offset ceiling. */
  method AppendDoc(q: Request, b: Batch, d: Doc, ghost ds: seq<Doc>) returns (r: Option<Batch>)
    requires DocOk(q, d) && Holds(q, b, ds)
    ensures r.Some? ==> Holds(q, r.value, ds + [d]) && r.value.rows == b.rows + d.rows
    ensures r.None? <==> NoRoom(q, b, d)
  {
    var key := AppendKey(b.key, d.key, d.rows);
    if key.None? {
      return None;
    }
    var text := b.text;
    if b.text.Some? {
      text := AppendCol(b.text.value, d.text.value, None);
      if text.None? {
        return None;
      }
    }
    ColumnsReady(q, b);
    var attrs := AppendAttrs(q, b.attrs, d);
    if attrs.None? {
      return None;
    }
    var metas := AppendMetas(q, b.metas, d);
    if metas.None? {
      return None;
    }
    var now := Batch(b.rows + d.rows, key.value, text, attrs.value, metas.value);
    DocAppended(q, b, now, d, ds);
    return Some(now);
  }

  lemma DocAppended(q: Request, b: Batch, now: Batch, d: Doc, ds: seq<Doc>)
    requires DocOk(q, d) && Holds(q, b, ds) && now.rows == b.rows + d.rows && now.text.Some? == b.text.Some?
    requires ColOk(now.key) && now.key.valid == None && Cells(now.key) == Cells(b.key) + KeyPart(d)
             && |now.key.data| == |b.key.data| + KeySize(d)
    requires now.text.Some? ==>
             ColOk(now.text.value) && now.text.value.valid == None
             && Cells(now.text.value) == Cells(b.text.value) + TextPart(d)
             && |now.text.value.data| == |b.text.value.data| + TextSize(d)
    requires |now.attrs| == |b.attrs| && forall i :: 0 <= i < |b.attrs| ==> AttrTaken(b.attrs[i], now.attrs[i], d, i)
    requires |now.metas| == |b.metas| && forall i :: 0 <= i < |b.metas| ==> MetaTaken(q, b.metas[i], now.metas[i], d, i)
    ensures Holds(q, now, ds + [d])
  {
    GatherOne(ds, d, KeyPart);
    GatherOne(ds, d, TextPart);
    TotalOne(ds, d, KeySize);
    TotalOne(ds, d, TextSize);
    assert |KeyPart(d)| == d.rows && (d.text.Some? ==> |TextPart(d)| == d.rows);
    forall i | 0 <= i < |now.attrs| ensures AttrHolds(now, ds + [d], i) && AttrColOk(now, i) {
      assert AttrHolds(b, ds, i) && AttrTaken(b.attrs[i], now.attrs[i], d, i);
      AttrAppended(q, b, now, d, ds, i);
    }
    forall i | 0 <= i < |now.metas| ensures MetaHolds(q, now, ds + [d], i) && MetaColOk(q, now, i) {
      assert MetaHolds(q, b, ds, i) && MetaTaken(q, b.metas[i], now.metas[i], d, i);
      MetaAppended(q, b, now, d, ds, i);
    }
  }

  lemma ColumnsReady(q: Request, b: Batch)
    requires BatchOk(q, b)
    ensures forall i :: 0 <= i < |b.attrs| ==> ColOk(b.attrs[i]) && b.attrs[i].valid.Some?
    ensures forall i :: 0 <= i < |b.metas| ==> MetaOk(b.metas[i]) && TypeOfMeta(b.metas[i]) == q.types[i]
  {
    forall i | 0 <= i < |b.attrs| ensures ColOk(b.attrs[i]) && b.attrs[i].valid.Some? {
      assert AttrColOk(b, i);
    }
    forall i | 0 <= i < |b.metas| ensures MetaOk(b.metas[i]) && TypeOfMeta(b.metas[i]) == q.types[i] {
      assert MetaColOk(q, b, i);
    }
  }

  lemma AttrAppended(q: Request, b: Batch, now: Batch, d: Doc, ds: seq<Doc>, i: nat)
    requires now.rows == b.rows + d.rows && i < |b.attrs| == |now.attrs| && AttrHolds(b, ds, i)
             && AttrTaken(b.attrs[i], now.attrs[i], d, i)
    ensures AttrHolds(now, ds + [d], i)
  {
    GatherOne(ds, d, AttrPart(i));
    TotalOne(ds, d, AttrSize(i));
    assert |AttrPart(i)(d)| == d.rows;
  }

  lemma MetaAppended(q: Request, b: Batch, now: Batch, d: Doc, ds: seq<Doc>, i: nat)
    requires now.rows == b.rows + d.rows && i < |b.metas| == |now.metas| && i < |q.types|
    requires MetaHolds(q, b, ds, i) && MetaTaken(q, b.metas[i], now.metas[i], d, i)
    ensures MetaHolds(q, now, ds + [d], i)
  {
    GatherOne(ds, d, MetaPart(q, i));
    TotalOne(ds, d, MetaSize(q, i));
    assert MetaPart(q, i)(d) == Rep(CellOf(q, d.pos, i), d.rows);
  }

  // ---- where the cuts fall ----

  /**
   The document on top of `ds` passes the limit in the key, the text or an attribute, or the metadata
   of `ds` has passed it already: the document's own metadata does not count.
   */
  ghost predicate Passes(q: Request, ds: seq<Doc>, d: Doc) {
    || Total(ds, KeySize) + KeySize(d) > q.limit
    || (q.wantText && Total(ds, TextSize) + TextSize(d) > q.limit)
    || (exists i :: 0 <= i < q.attrs && Total(ds, AttrSize(i)) + AttrSize(i)(d) > q.limit)
    || (exists i :: 0 <= i < |q.types| && q.types[i].StrType? && Total(ds, MetaSize(q, i)) > q.limit)
  }

  /** The document on top of `ds` passes the 32-bit offset ceiling, in whichever column. */
  ghost predicate PassesCeiling(q: Request, ds: seq<Doc>, d: Doc) {
    || Total(ds, KeySize) + KeySize(d) >= I32
    || (q.wantText && Total(ds, TextSize) + TextSize(d) >= I32)
    || (exists i :: 0 <= i < q.attrs && Total(ds, AttrSize(i)) + AttrSize(i)(d) >= I32)
    || (exists i :: 0 <= i < |q.types| && q.types[i].StrType? && Total(ds, MetaSize(q, i)) + MetaSize(q, i)(d) >= I32)
  }

  ghost function CutRule(q: Request): Rule<Doc> {
    (ds, d) => Passes(q, ds, d)
  }

  /** The hits in their order, cut by their sizes alone. */
  ghost function GroupsOf(q: Request, hits: seq<Doc>): (groups: seq<seq<Doc>>) {
    Groups(CutRule(q), hits, |hits|)
  }

  /** The key, the text and every attribute of the documents come to no more than the limit. */
  ghost predicate Within(q: Request, ds: seq<Doc>) {
    && Total(ds, KeySize) <= q.limit && (q.wantText ==> Total(ds, TextSize) <= q.limit)
    && forall i :: 0 <= i < q.attrs ==> Total(ds, AttrSize(i)) <= q.limit
  }

  /** These documents leave every string metadata column within the limit. */
  ghost predicate MetasWithin(q: Request, ds: seq<Doc>) {
    forall i :: 0 <= i < |q.types| && q.types[i].StrType? ==> Total(ds, MetaSize(q, i)) <= q.limit
  }

  /** A group of several is within the limit, its metadata but for the last document's. */
  ghost predicate Sized(q: Request, ds: seq<Doc>) {
    ds != [] && (|ds| > 1 ==> Within(q, ds)) && MetasWithin(q, ds[..|ds| - 1])
  }

  lemma GroupsAreSized(q: Request, hits: seq<Doc>)
    ensures forall b :: 0 <= b < |GroupsOf(q, hits)| ==> Sized(q, GroupsOf(q, hits)[b])
  {
    forall b | 0 <= b < |GroupsOf(q, hits)| ensures Sized(q, GroupsOf(q, hits)[b]) {
      var j := GroupIsSince(CutRule(q), hits, |hits|, b);
      SinceIsSized(q, hits, j);
    }
  }

  /**
   The groups are all the hits, in order, and each but the first begins with a hit that the one before
   had no room for: with it the keys, the texts or some attribute would be past the limit, or some
   string metadata already is.
   */
  lemma CutIsForced(q: Request, hits: seq<Doc>, b: nat)
    requires (forall k :: 0 <= k < |hits| ==> DocOk(q, hits[k])) && 0 < b < |GroupsOf(q, hits)|
    ensures Flatten(GroupsOf(q, hits)) == hits
    ensures var ds, h := GroupsOf(q, hits)[b - 1], GroupsOf(q, hits)[b][0];
            || Total(ds, KeySize) + Times(|h.key|, h.rows) > q.limit
            || (q.wantText && h.text.Some? && Total(ds, TextSize) + |h.text.value.data| > q.limit)
            || (exists i :: 0 <= i < |h.attrs| == q.attrs && Total(ds, AttrSize(i)) + |h.attrs[i].0.data| > q.limit)
            || (exists i :: 0 <= i < |q.types| && q.types[i].StrType? && Total(ds, MetaSize(q, i)) > q.limit)
  {
    var groups := GroupsOf(q, hits);
    GroupsAreAll(CutRule(q), hits, |hits|);
    CutsAreNeeded(CutRule(q), hits, |hits|);
    assert hits[..|hits|] == hits;
    assert CutFor(CutRule(q), groups, b);
    InFlatten(groups, b, groups[b][0]);
    var ds, h := groups[b - 1], groups[b][0];
    assert Passes(q, ds, h) && DocOk(q, h);
    if i :| 0 <= i < q.attrs && Total(ds, AttrSize(i)) + AttrSize(i)(h) > q.limit {
      assert Total(ds, AttrSize(i)) + |h.attrs[i].0.data| > q.limit;
    }
  }

  lemma {:induction false} InFlatten(groups: seq<seq<Doc>>, b: nat, d: Doc)
    requires b < |groups| && d in groups[b]
    ensures d in Flatten(groups)
  {
    if b > 0 { InFlatten(groups[1..], b - 1, d); }
  }

  lemma SinceIsSized(q: Request, hits: seq<Doc>, k: nat)
    requires k < |hits|
    ensures Sized(q, Since(CutRule(q), hits, k) + [hits[k]])
  {
    var ds, d := Since(CutRule(q), hits, k), hits[k];
    assert (ds + [d])[..|ds|] == ds;
    if ds != [] {
      assert !Passes(q, ds, d);
      TotalOne(ds, d, KeySize);
      TotalOne(ds, d, TextSize);
      forall i | 0 <= i < q.attrs ensures Total(ds + [d], AttrSize(i)) <= q.limit {
        TotalOne(ds, d, AttrSize(i));
      }
    }
  }

  /** What `hits[k]` brings the documents since the last cut to. */
  ghost function Reaches(q: Request, hits: seq<Doc>, k: nat, size: Doc -> nat): nat
    requires k < |hits|
  {
    Total(Since(CutRule(q), hits, k), size) + size(hits[k])
  }

  lemma {:induction false} TotalPrefix(ds: seq<Doc>, all: seq<Doc>, size: Doc -> nat)
    requires ds <= all
    ensures Total(ds, size) <= Total(all, size)
  {
    if |ds| < |all| {
      TotalPrefix(ds, all[..|all| - 1], size);
    } else {
      assert ds == all;
    }
  }

  // ---- assembling the batches ----

  /** Adding the document would pass the limit in some column; metadata is looked at as it stands. */
  predicate WouldPass(q: Request, b: Batch, d: Doc) {
    || |b.key.data| + Times(|d.key|, d.rows) > q.limit
    || (b.text.Some? && d.text.Some? && |b.text.value.data| + |d.text.value.data| > q.limit)
    || (exists i :: 0 <= i < |b.attrs| && AttrPasses(q, b, d, i))
    || (exists i :: 0 <= i < |b.metas| && MetaPasses(q, b, i))
  }

  predicate AttrPasses(q: Request, b: Batch, d: Doc, i: nat) {
    i < |b.attrs| && i < |d.attrs| && |b.attrs[i].data| + |d.attrs[i].0.data| > q.limit
  }

  predicate MetaPasses(q: Request, b: Batch, i: nat) {
    i < |b.metas| && b.metas[i].StrCol? && |b.metas[i].col.data| > q.limit
  }

  /** On a batch that holds `ds`, the test is the one on the sizes of `ds`. */
  lemma WouldPassIs(q: Request, b: Batch, d: Doc, ds: seq<Doc>)
    requires DocOk(q, d) && Holds(q, b, ds)
    ensures WouldPass(q, b, d) <==> Passes(q, ds, d)
  {
    forall i | 0 <= i < q.attrs ensures AttrPasses(q, b, d, i) <==>
        Total(ds, AttrSize(i)) + AttrSize(i)(d) > q.limit {
      assert AttrHolds(b, ds, i);
    }
    forall i | 0 <= i < |q.types| ensures MetaPasses(q, b, i) <==>
        q.types[i].StrType? && Total(ds, MetaSize(q, i)) > q.limit {
      assert MetaHolds(q, b, ds, i) && MetaColOk(q, b, i);
    }
  }

  lemma NoRoomIs(q: Request, b: Batch, d: Doc, ds: seq<Doc>)
    requires DocOk(q, d) && Holds(q, b, ds)
    ensures NoRoom(q, b, d) <==> PassesCeiling(q, ds, d)
  {
    forall i | 0 <= i < q.attrs ensures |b.attrs[i].data| == Total(ds, AttrSize(i)) {
      assert AttrHolds(b, ds, i);
    }
    forall i | 0 <= i < |q.types| ensures MetaFails(q, b.metas[i], d, i) <==>
        q.types[i].StrType? && Total(ds, MetaSize(q, i)) + MetaSize(q, i)(d) >= I32 {
      assert MetaHolds(q, b, ds, i) && MetaColOk(q, b, i);
    }
  }

  lemma RowsPositive(q: Request, b: Batch, ds: seq<Doc>)
    requires Holds(q, b, ds) && (ds != [] ==> ds[0].rows > 0)
    ensures b.rows > 0 <==> ds != []
  {
    if ds != [] {
      assert Gather(ds, KeyPart) == KeyPart(ds[0]) + Gather(ds[1..], KeyPart);
    }
  }

  ghost predicate AllHold(q: Request, batches: seq<Batch>, groups: seq<seq<Doc>>) {
    |batches| == |groups| && forall b :: 0 <= b < |batches| ==> Holds(q, batches[b], groups[b])
  }

  /** The finished batches hold all groups but the last, which the open batch holds. */
  ghost predicate Building(q: Request, batches: seq<Batch>, cur: Batch, groups: seq<seq<Doc>>) {
    if groups == [] then batches == [] && Holds(q, cur, [])
    else AllHold(q, batches, groups[..|groups| - 1]) && Holds(q, cur, groups[|groups| - 1])
  }

  /** Document `k` passes the 32-bit ceiling on top of those since the last cut. */
  ghost predicate NoRoomAt(q: Request, hits: seq<Doc>, k: nat) {
    k < |hits| && PassesCeiling(q, Since(CutRule(q), hits, k), hits[k])
  }

  /** Each of the first `k` documents fits under the 32-bit ceiling on top of those since the last cut. */
  ghost predicate AllFit(q: Request, hits: seq<Doc>, k: nat) {
    forall j :: 0 <= j < k ==> !NoRoomAt(q, hits, j)
  }

  lemma OneMoreFits(q: Request, hits: seq<Doc>, k: nat)
    requires k < |hits|
    ensures AllFit(q, hits, k + 1) <==> AllFit(q, hits, k) && !NoRoomAt(q, hits, k)
    ensures !AllFit(q, hits, k + 1) ==> !AllFit(q, hits, |hits|)
  {
  }

  /**
   The whole assembly: a batch is cut before the document that would take a column past the limit,
   if there is anything to cut. It fails exactly when a document finds no room under the 32-bit
   offset ceiling.
   */
  method BuildBatches(q: Request, hits: seq<Doc>) returns (r: Option<seq<Batch>>)
    requires forall k :: 0 <= k < |hits| ==> DocOk(q, hits[k])
    ensures r.Some? ==> AllHold(q, r.value, GroupsOf(q, hits))
    ensures r.None? <==> !AllFit(q, hits, |hits|)
  {
    var cur, batches := EmptyBatch(q), [];
    NothingBuilt(q, hits);
    for k := 0 to |hits|
      invariant Building(q, batches, cur, Groups(CutRule(q), hits, k)) == true
      invariant AllFit(q, hits, k) == true
    {
      cur, batches := MakeRoom(q, cur, batches, hits, k);
      var grown := AppendHit(q, cur, batches, hits, k);
      OneMoreFits(q, hits, k);
      if grown.None? {
        return None;
      }
      cur := grown.value;
    }
    batches := Flush(q, cur, batches, hits);
    return Some(batches);
  }

  lemma NothingBuilt(q: Request, hits: seq<Doc>)
    ensures Building(q, [], EmptyBatch(q), Groups(CutRule(q), hits, 0))
  {
    EmptyHolds(q);
  }

  method AppendHit(q: Request, cur: Batch, ghost batches: seq<Batch>, hits: seq<Doc>, k: nat)
      returns (r: Option<Batch>)
    requires RoomMade(q, cur, batches, hits, k) && DocOk(q, hits[k])
    ensures r.Some? ==> Building(q, batches, r.value, Groups(CutRule(q), hits, k + 1))
    ensures r.None? <==> NoRoomAt(q, hits, k)
  {
    ghost var since := Since(CutRule(q), hits, k);
    NoRoomIs(q, cur, hits[k], since);
    r := AppendDoc(q, cur, hits[k], since);
    if r.Some? { Grown(q, hits, k, batches, r.value); }
  }

  /** The batches hold the complete groups, and the open one the documents since the last cut. */
  ghost predicate RoomMade(q: Request, cur: Batch, batches: seq<Batch>, hits: seq<Doc>, k: nat) {
    && k < |hits| && Holds(q, cur, Since(CutRule(q), hits, k))
    && AllHold(q, batches, Complete(CutRule(q), Groups(CutRule(q), hits, k), hits[k]))
  }

  /** Cuts the batch if the document would take it past the limit and there is anything to cut. */
  method MakeRoom(q: Request, cur: Batch, batches: seq<Batch>, hits: seq<Doc>, k: nat)
      returns (cur': Batch, batches': seq<Batch>)
    requires k < |hits| && (forall j :: 0 <= j < |hits| ==> DocOk(q, hits[j]))
    requires Building(q, batches, cur, Groups(CutRule(q), hits, k))
    ensures RoomMade(q, cur', batches', hits, k)
  {
    cur', batches' := cur, batches;
    OpenRows(q, hits, k, cur, batches);
    if cur.rows > 0 && WouldPass(q, cur, hits[k]) {
      RoomCut(q, cur, batches, hits, k);
      cur', batches' := EmptyBatch(q), batches + [cur];
    } else {
      RoomLeft(q, cur, batches, hits, k);
    }
  }

  lemma RoomCut(q: Request, cur: Batch, batches: seq<Batch>, hits: seq<Doc>, k: nat)
    requires 0 < k < |hits| && DocOk(q, hits[k]) && Building(q, batches, cur, Groups(CutRule(q), hits, k))
    requires WouldPass(q, cur, hits[k])
    ensures RoomMade(q, EmptyBatch(q), batches + [cur], hits, k)
  {
    var groups := Groups(CutRule(q), hits, k);
    WouldPassIs(q, cur, hits[k], groups[|groups| - 1]);
    EmptyHolds(q);
    AllHoldOne(q, batches, groups, cur);
  }

  lemma AllHoldOne(q: Request, batches: seq<Batch>, groups: seq<seq<Doc>>, cur: Batch)
    requires groups != [] && Building(q, batches, cur, groups)
    ensures AllHold(q, batches + [cur], groups)
  {
  }

  lemma RoomLeft(q: Request, cur: Batch, batches: seq<Batch>, hits: seq<Doc>, k: nat)
    requires k < |hits| && DocOk(q, hits[k]) && Building(q, batches, cur, Groups(CutRule(q), hits, k))
    requires k > 0 ==> !WouldPass(q, cur, hits[k])
    ensures RoomMade(q, cur, batches, hits, k)
  {
    var groups := Groups(CutRule(q), hits, k);
    if k > 0 { WouldPassIs(q, cur, hits[k], groups[|groups| - 1]); }
  }

  /** The open batch has rows exactly if there are documents so far. */
  lemma OpenRows(q: Request, hits: seq<Doc>, k: nat, cur: Batch, batches: seq<Batch>)
    requires k <= |hits| && forall j :: 0 <= j < |hits| ==> DocOk(q, hits[j])
    requires Building(q, batches, cur, Groups(CutRule(q), hits, k))
    ensures cur.rows > 0 <==> k > 0
  {
    if k > 0 {
      var groups := Groups(CutRule(q), hits, k);
      var n := |groups| - 1;
      GroupsAreAll(CutRule(q), hits, k);
      assert groups == groups[..n] + [groups[n]];
      FlattenOne(groups[..n], groups[n]);
      assert groups[n] != [] && groups[n][0] in hits[..k];
      RowsPositive(q, cur, groups[n]);
    }
  }

  lemma Grown(q: Request, hits: seq<Doc>, k: nat, batches: seq<Batch>, now: Batch)
    requires k < |hits| && AllHold(q, batches, Complete(CutRule(q), Groups(CutRule(q), hits, k), hits[k]))
    requires Holds(q, now, Since(CutRule(q), hits, k) + [hits[k]])
    ensures Building(q, batches, now, Groups(CutRule(q), hits, k + 1))
  {
    var closed := Complete(CutRule(q), Groups(CutRule(q), hits, k), hits[k]);
    var groups := Groups(CutRule(q), hits, k + 1);
    assert groups == closed + [Since(CutRule(q), hits, k) + [hits[k]]];
    assert groups[..|groups| - 1] == closed;
  }

  /** The last batch, if there is anything in it. */
  method Flush(q: Request, cur: Batch, batches: seq<Batch>, hits: seq<Doc>) returns (all: seq<Batch>)
    requires Building(q, batches, cur, GroupsOf(q, hits)) && forall k :: 0 <= k < |hits| ==> DocOk(q, hits[k])
    ensures AllHold(q, all, GroupsOf(q, hits))
  {
    all := batches;
    OpenRows(q, hits, |hits|, cur, batches);
    if cur.rows > 0 {
      all := batches + [cur];
    }
  }

  // ---- the limit and the ceiling ----

  /** One column of one document is too long by itself, or its metadata value is on top of a full batch. */
  predicate TooLong(q: Request, d: Doc) {
    || Times(|d.key|, d.rows) >= I32 || (d.text.Some? && |d.text.value.data| >= I32)
    || (exists i :: 0 <= i < |d.attrs| && |d.attrs[i].0.data| >= I32)
    || (exists i :: 0 <= i < |q.types| && MetaTooLong(q, d, i))
  }

  predicate MetaTooLong(q: Request, d: Doc, i: nat) {
    q.limit + StrLen(q.metaValue(d.pos, i), d.rows) >= I32
  }

  /** With a limit under the ceiling, only a document that is too long finds no room. */
  lemma NoRoomIsTooLong(q: Request, hits: seq<Doc>, k: nat)
    requires q.limit < I32 && NoRoomAt(q, hits, k) && DocOk(q, hits[k])
    ensures TooLong(q, hits[k])
  {
    var ds, d := Since(CutRule(q), hits, k), hits[k];
    assert ds != [] ==> !Passes(q, ds, d);
    if i :| 0 <= i < |q.types| && q.types[i].StrType? && Total(ds, MetaSize(q, i)) + MetaSize(q, i)(d) >= I32 {
      assert MetaTooLong(q, d, i);
    } else if i :| 0 <= i < q.attrs && Total(ds, AttrSize(i)) + AttrSize(i)(d) >= I32 {
      assert |d.attrs[i].0.data| >= I32;
    }
  }

  /**
   A string metadata column of some batch passes the limit exactly if some document's value, on each
   of its rows, takes what the documents since the last cut have there past it.
   */
  lemma MetaPassesLimit(q: Request, hits: seq<Doc>, batches: seq<Batch>, i: nat)
    requires AllHold(q, batches, GroupsOf(q, hits)) && i < |q.types| && q.types[i].StrType?
    ensures (exists b :: 0 <= b < |batches| && MetaData(batches[b], i) > q.limit)
            <==> exists k :: 0 <= k < |hits| && Reaches(q, hits, k, MetaSize(q, i)) > q.limit
  {
    if b :| 0 <= b < |batches| && MetaData(batches[b], i) > q.limit {
      MetaDataIs(q, batches[b], GroupsOf(q, hits)[b], i);
      var k := GroupIsSince(CutRule(q), hits, |hits|, b);
      TotalOne(Since(CutRule(q), hits, k), hits[k], MetaSize(q, i));
      assert Reaches(q, hits, k, MetaSize(q, i)) > q.limit;
    }
    if k :| 0 <= k < |hits| && Reaches(q, hits, k, MetaSize(q, i)) > q.limit {
      var b := SinceIsInGroup(CutRule(q), hits, |hits|, k);
      var ds := Since(CutRule(q), hits, k);
      MetaDataIs(q, batches[b], GroupsOf(q, hits)[b], i);
      TotalOne(ds, hits[k], MetaSize(q, i));
      TotalPrefix(ds + [hits[k]], GroupsOf(q, hits)[b], MetaSize(q, i));
      assert MetaData(batches[b], i) > q.limit;
    }
  }

  lemma MetaDataIs(q: Request, b: Batch, ds: seq<Doc>, i: nat)
    requires Holds(q, b, ds) && i < |q.types| && q.types[i].StrType?
    ensures MetaData(b, i) == Total(ds, MetaSize(q, i))
  {
    assert MetaHolds(q, b, ds, i) && MetaColOk(q, b, i);
  }

  /** The bytes in string metadata column `i`. */
  function MetaData(b: Batch, i: nat): nat {
    if i < |b.metas| && b.metas[i].StrCol? then |b.metas[i].col.data| else 0
  }

  /**
   Two documents of different keys without attributes or text, each with a string value of one byte,
   under a limit of one byte: they share a batch, and its metadata is two bytes long.
   */
  method MetadataPastLimit() returns (q: Request, hits: seq<Doc>, r: Option<seq<Batch>>)
    ensures q.limit == 1 && |hits| == 2 && (forall k :: 0 <= k < |hits| ==> DocOk(q, hits[k]))
    ensures hits[0].key != hits[1].key && hits[0].pos != hits[1].pos
    ensures r.Some? && |r.value| == 1 && MetaData(r.value[0], 0) == 2 > q.limit
  {
    var d, e := Doc([], 1, 0, None, []), Doc([65], 1, 1, None, []);
    var value := Some(M.StrVal([65]));
    q, hits := Request(false, 0, [M.StrType], (pos, i) => value, 1), [d, e];
    assert StrLen(value, 1) == Times(1, 1) == 1 + Times(1, 0);
    r := BuildBatches(q, hits);
    assert Times(1, 1) == 1 + Times(1, 0) && Times(0, 1) == 0 + Times(0, 0);
    OneGroup(q, d, e);
    TwoBytes(q, r.value, [d, e]);
  }

  lemma TwoBytes(q: Request, batches: seq<Batch>, hits: seq<Doc>)
    requires AllHold(q, batches, [hits]) && q.types == [M.StrType] && Total(hits, MetaSize(q, 0)) == 2
    ensures |batches| == 1 && |batches[0].metas| == 1 && MetaData(batches[0], 0) == 2
  {
    assert Holds(q, batches[0], [hits][0]);
    assert MetaHolds(q, batches[0], hits, 0) && MetaColOk(q, batches[0], 0);
  }

  /** Two documents of one row and one byte of text each, under a limit of 1 GiB: they share a batch. */
  method TextsShare() returns (q: Request, hits: seq<Doc>, r: Option<seq<Batch>>)
    ensures q.limit == 0x4000_0000 && q.wantText && |hits| == 2 && (forall k :: 0 <= k < |hits| ==> DocOk(q, hits[k]))
    ensures forall k :: 0 <= k < |hits| ==> hits[k].rows == 1 && hits[k].text.Some? && |hits[k].text.value.data| == 1
    ensures r.Some? && |r.value| == 1 && r.value[0].rows == 2
  {
    var d, e := Doc([97], 1, 0, Some(Chunk([120], [1])), []), Doc([98], 1, 1, Some(Chunk([121], [1])), []);
    q, hits := Request(true, 0, [], (pos, i) => None, 0x4000_0000), [d, e];
    assert KeySize(d) == Times(1, 1) == 1 + Times(1, 0) && KeySize(e) == Times(1, 1);
    SmallTotals(d, e, KeySize);
    SmallTotals(d, e, TextSize);
    assert !Passes(q, [d], e) && !PassesCeiling(q, [], d) && !PassesCeiling(q, [d], e);
    Pair(CutRule(q), d, e);
    r := BuildBatches(q, hits);
    assert Holds(q, r.value[0], [d, e]);
    GatherOne([d], e, KeyPart);
    GatherOne([], d, KeyPart);
    assert [] + [d] == [d] && [d] + [e] == [d, e];
  }

  /** The two documents are one group, and there is room for both. */
  lemma OneGroup(q: Request, d: Doc, e: Doc)
    requires q.limit == 1 && q.types == [M.StrType] && q.attrs == 0 && !q.wantText
    requires KeySize(d) == 0 && KeySize(e) == 1 && MetaSize(q, 0)(d) == 1 == MetaSize(q, 0)(e)
    ensures GroupsOf(q, [d, e]) == [[d, e]] && AllFit(q, [d, e], 2)
    ensures Total([d, e], MetaSize(q, 0)) == 2
  {
    SmallTotals(d, e, KeySize);
    SmallTotals(d, e, MetaSize(q, 0));
    assert !Passes(q, [d], e) && !PassesCeiling(q, [], d) && !PassesCeiling(q, [d], e);
    Pair(CutRule(q), d, e);
  }

  /** Two items the rule does not part. */
  lemma Pair(cut: Rule<Doc>, d: Doc, e: Doc)
    requires !cut([d], e)
    ensures Groups(cut, [d, e], 2) == [[d, e]] && Since(cut, [d, e], 0) == [] && Since(cut, [d, e], 1) == [d]
  {
    var hits := [d, e];
    assert [] + [d] == [d] && [d] + [e] == hits;
    assert Groups(cut, hits, 1) == Added(cut, [], d) == [[d]];
    assert Groups(cut, hits, 2) == Added(cut, [[d]], e) == [[d, e]];
  }

  lemma SmallTotals(d: Doc, e: Doc, size: Doc -> nat)
    ensures Total([], size) == 0 && Total([d], size) == size(d) && Total([d, e], size) == size(d) + size(e)
  {
    assert [d][..0] == [] && [d, e][..1] == [d];
  }

  // ---- the batches as one table ----

  function KeyCells(b: Batch): seq<Option<Bytes>> {
    if ColOk(b.key) then Cells(b.key) else []
  }

  function TextCells(b: Batch): seq<Option<Bytes>> {
    if b.text.Some? && ColOk(b.text.value) then Cells(b.text.value) else []
  }

  function AttrCells(i: nat): (Batch -> seq<Option<Bytes>>) {
    (b: Batch) => if i < |b.attrs| && ColOk(b.attrs[i]) then Cells(b.attrs[i]) else []
  }

  function MetaColCells(i: nat): (Batch -> seq<Option<M.Value>>) {
    (b: Batch) => if i < |b.metas| && MetaOk(b.metas[i]) then MetaCells(b.metas[i]) else []
  }

  /** Decoded and concatenated, the batches give every column of the naive table, nulls included. */
  lemma {:induction false} BatchesAreTheTable(q: Request, batches: seq<Batch>, groups: seq<seq<Doc>>)
    requires AllHold(q, batches, groups)
    ensures Gather(batches, KeyCells) == Gather(Flatten(groups), KeyPart)
    ensures q.wantText ==> Gather(batches, TextCells) == Gather(Flatten(groups), TextPart)
    ensures forall i :: 0 <= i < q.attrs ==> Gather(batches, AttrCells(i)) == Gather(Flatten(groups), AttrPart(i))
    ensures forall i :: 0 <= i < |q.types| ==>
            Gather(batches, MetaColCells(i)) == Gather(Flatten(groups), MetaPart(q, i))
  {
    if batches != [] {
      var b, g, rest := batches[0], groups[0], Flatten(groups[1..]);
      assert Holds(q, b, g);
      BatchesAreTheTable(q, batches[1..], groups[1..]);
      GatherConcat(g, rest, KeyPart);
      GatherConcat(g, rest, TextPart);
      forall i | 0 <= i < q.attrs ensures Gather(batches, AttrCells(i)) == Gather(Flatten(groups), AttrPart(i)) {
        assert AttrHolds(b, g, i);
        GatherConcat(g, rest, AttrPart(i));
      }
      forall i | 0 <= i < |q.types| ensures Gather(batches, MetaColCells(i)) ==
          Gather(Flatten(groups), MetaPart(q, i)) {
        assert MetaHolds(q, b, g, i);
        GatherConcat(g, rest, MetaPart(q, i));
      }
    }
  }

  // ---- the table, row by row ----

  /** How many rows the hits before number `k` have. */
  function RowsBefore(hits: seq<Doc>, k: nat): nat
    requires k <= |hits|
  {
    if k == 0 then 0 else hits[0].rows + RowsBefore(hits[1..], k - 1)
  }

  lemma {:induction false} GatherAt<C>(hits: seq<Doc>, part: Doc -> seq<C>, k: nat, j: nat)
    requires (forall d :: d in hits ==> |part(d)| == d.rows) && k < |hits| && j < hits[k].rows
    ensures RowsBefore(hits, k) + j < |Gather(hits, part)|
    ensures Gather(hits, part)[RowsBefore(hits, k) + j] == part(hits[k])[j]
  {
    if k > 0 { GatherAt(hits[1..], part, k - 1, j); }
  }

  /** Row `j` of a chunk. */
  function RowText(c: Chunk, j: nat): Bytes
    requires ChunkOk(c, |c.ends|) && j < |c.ends|
  {
    EndsBelow(c.ends, j, |c.ends| - 1);
    c.data[if j == 0 then 0 else c.ends[j - 1]..c.ends[j]]
  }

  predicate CellIs<C(==)>(cells: seq<C>, p: nat, cell: C) {
    p < |cells| && cells[p] == cell
  }

  /** Row `p` of the table is row `j` of the hit `h`, in every column. */
  ghost predicate RowIs(q: Request, batches: seq<Batch>, p: nat, h: Doc, j: nat)
    requires DocOk(q, h) && j < h.rows
  {
    && CellIs(Gather(batches, KeyCells), p, Some(h.key))
    && (q.wantText ==> CellIs(Gather(batches, TextCells), p, Some(RowText(h.text.value, j))))
    && AttrsAre(q, batches, p, h, j) && MetasAre(q, batches, p, h)
  }

  ghost predicate AttrsAre(q: Request, batches: seq<Batch>, p: nat, h: Doc, j: nat)
    requires DocOk(q, h) && j < h.rows
  {
    forall i :: 0 <= i < q.attrs ==> AttrIs(q, batches, p, h, j, i)
  }

  ghost predicate MetasAre(q: Request, batches: seq<Batch>, p: nat, h: Doc) {
    forall i :: 0 <= i < |q.types| ==> MetaIs(q, batches, p, h, i)
  }

  ghost predicate AttrIs(q: Request, batches: seq<Batch>, p: nat, h: Doc, j: nat, i: nat)
    requires DocOk(q, h) && j < h.rows && i < q.attrs
  {
    assert AttrOk(h, i);
    CellIs(Gather(batches, AttrCells(i)), p, if h.attrs[i].1[j] then Some(RowText(h.attrs[i].0, j)) else None)
  }

  ghost predicate MetaIs(q: Request, batches: seq<Batch>, p: nat, h: Doc, i: nat)
    requires i < |q.types|
  {
    var value := q.metaValue(h.pos, i);
    CellIs(Gather(batches, MetaColCells(i)), p,
           if value.Some? && M.TypeOf(value.value) == q.types[i] then value else None)
  }

  /** The batches hold the hits, in these groups. */
  ghost predicate HoldAll(q: Request, batches: seq<Batch>, groups: seq<seq<Doc>>, hits: seq<Doc>) {
    && AllHold(q, batches, groups) && Flatten(groups) == hits
    && forall n :: 0 <= n < |hits| ==> DocOk(q, hits[n])
  }

  /** Every row of every hit is a row of the table, behind the rows of the hits before. */
  lemma TableRow(q: Request, batches: seq<Batch>, groups: seq<seq<Doc>>, hits: seq<Doc>, k: nat, j: nat)
    requires HoldAll(q, batches, groups, hits) && k < |hits| && j < hits[k].rows
    ensures RowIs(q, batches, RowsBefore(hits, k) + j, hits[k], j)
  {
    TextRow(q, batches, groups, hits, k, j);
    AttrRows(q, batches, groups, hits, k, j);
    MetaRows(q, batches, groups, hits, k, j);
  }

  lemma AttrRows(q: Request, batches: seq<Batch>, groups: seq<seq<Doc>>, hits: seq<Doc>, k: nat, j: nat)
    requires HoldAll(q, batches, groups, hits) && k < |hits| && j < hits[k].rows
    ensures AttrsAre(q, batches, RowsBefore(hits, k) + j, hits[k], j)
  {
    var p := RowsBefore(hits, k) + j;
    forall i | 0 <= i < q.attrs ensures AttrIs(q, batches, p, hits[k], j, i) {
      AttrRow(q, batches, groups, hits, k, j, i);
    }
  }

  lemma MetaRows(q: Request, batches: seq<Batch>, groups: seq<seq<Doc>>, hits: seq<Doc>, k: nat, j: nat)
    requires HoldAll(q, batches, groups, hits) && k < |hits| && j < hits[k].rows
    ensures MetasAre(q, batches, RowsBefore(hits, k) + j, hits[k])
  {
    var p := RowsBefore(hits, k) + j;
    forall i | 0 <= i < |q.types| ensures MetaIs(q, batches, p, hits[k], i) {
      MetaRow(q, batches, groups, hits, k, j, i);
    }
  }

  lemma TextRow(q: Request, batches: seq<Batch>, groups: seq<seq<Doc>>, hits: seq<Doc>, k: nat, j: nat)
    requires HoldAll(q, batches, groups, hits) && k < |hits| && j < hits[k].rows
    ensures CellIs(Gather(batches, KeyCells), RowsBefore(hits, k) + j, Some(hits[k].key))
    ensures q.wantText ==>
              CellIs(Gather(batches, TextCells), RowsBefore(hits, k) + j, Some(RowText(hits[k].text.value, j)))
  {
    BatchesAreTheTable(q, batches, groups);
    PartsCount(q, hits);
    GatherAt(hits, KeyPart, k, j);
    if q.wantText { GatherAt(hits, TextPart, k, j); }
  }

  lemma AttrRow(q: Request, batches: seq<Batch>, groups: seq<seq<Doc>>, hits: seq<Doc>, k: nat, j: nat, i: nat)
    requires HoldAll(q, batches, groups, hits) && k < |hits| && j < hits[k].rows && i < q.attrs
    ensures AttrIs(q, batches, RowsBefore(hits, k) + j, hits[k], j, i)
  {
    BatchesAreTheTable(q, batches, groups);
    PartsCount(q, hits);
    assert AttrOk(hits[k], i);
    GatherAt(hits, AttrPart(i), k, j);
  }

  lemma MetaRow(q: Request, batches: seq<Batch>, groups: seq<seq<Doc>>, hits: seq<Doc>, k: nat, j: nat, i: nat)
    requires HoldAll(q, batches, groups, hits) && k < |hits| && j < hits[k].rows && i < |q.types|
    ensures MetaIs(q, batches, RowsBefore(hits, k) + j, hits[k], i)
  {
    BatchesAreTheTable(q, batches, groups);
    PartsCount(q, hits);
    GatherAt(hits, MetaPart(q, i), k, j);
  }

  /** And there are no others. */
  lemma TableEnds(q: Request, batches: seq<Batch>, groups: seq<seq<Doc>>, hits: seq<Doc>)
    requires HoldAll(q, batches, groups, hits)
    ensures var rows := RowsBefore(hits, |hits|);
            && |Gather(batches, KeyCells)| == rows && (q.wantText ==> |Gather(batches, TextCells)| == rows)
            && (forall i :: 0 <= i < q.attrs ==> |Gather(batches, AttrCells(i))| == rows)
            && (forall i :: 0 <= i < |q.types| ==> |Gather(batches, MetaColCells(i))| == rows)
  {
    BatchesAreTheTable(q, batches, groups);
    PartsCount(q, hits);
    GatherLength(hits, KeyPart);
    if q.wantText { GatherLength(hits, TextPart); }
    forall i | 0 <= i < q.attrs ensures |Gather(batches, AttrCells(i))| == RowsBefore(hits, |hits|) {
      GatherLength(hits, AttrPart(i));
    }
    forall i | 0 <= i < |q.types| ensures |Gather(batches, MetaColCells(i))| == RowsBefore(hits, |hits|) {
      GatherLength(hits, MetaPart(q, i));
    }
  }

  lemma {:induction false} GatherLength<C>(hits: seq<Doc>, part: Doc -> seq<C>)
    requires forall d :: d in hits ==> |part(d)| == d.rows
    ensures |Gather(hits, part)| == RowsBefore(hits, |hits|)
  {
    if hits != [] { GatherLength(hits[1..], part); }
  }

  lemma PartsCount(q: Request, hits: seq<Doc>)
    requires forall n :: 0 <= n < |hits| ==> DocOk(q, hits[n])
    ensures forall d :: d in hits ==> |KeyPart(d)| == d.rows && (q.wantText ==> |TextPart(d)| == d.rows)
    ensures forall d, i :: d in hits && 0 <= i < q.attrs ==> |AttrPart(i)(d)| == d.rows
    ensures forall d, i :: d in hits && 0 <= i < |q.types| ==> |MetaPart(q, i)(d)| == d.rows
  {
    forall d, i | d in hits && 0 <= i < q.attrs ensures |AttrPart(i)(d)| == d.rows {
      assert DocOk(q, d) && AttrOk(d, i);
    }
    forall d, i | d in hits && 0 <= i < |q.types| ensures |MetaPart(q, i)(d)| == d.rows {
      assert MetaPart(q, i)(d) == Rep(CellOf(q, d.pos, i), d.rows);
    }
  }
}
