/**
 Conversion of a source into one archive: a warm-up of the first runs, then the rest in parallel,
 every run written as one bundle in rank order, metadata rows paired with the stored documents.
 */
module Convert {
  import opened Wrappers
  import opened Arrivals
  import opened LittleEndian
  import opened TextBlocks
  import opened DocTable
  import opened Layout
  import opened Lists
  import opened Writer
  import opened FirstWins
  import A = Appender
  import D = Driver
  import M = Meta

  // ---- entries ----

  /**
   A document serialized on its worker; `doc` is what it stands for, `bytes` its blob without the
   text, `strings` the text or, later, its frames.
   */
  datatype Entry = Entry(doc: Stored, bytes: Bytes, strings: Bytes, frameEnds: seq<nat>, rawEnds: seq<nat>)

  ghost predicate Serialized(ser: Serializer, e: Entry) {
    e.bytes == ser.putHtml(HtmlOf(e.doc)) && Greedy(e.rawEnds, e.doc.text.nodes, |e.doc.text.pool|)
  }

  ghost predicate Raw(ser: Serializer, e: Entry) {
    Serialized(ser, e) && e.strings == e.doc.text.pool && e.frameEnds == []
  }

  ghost predicate Compressed(ser: Serializer, c: Codec, e: Entry) {
    Serialized(ser, e) && FramesFor(c, e.doc.text.pool, e.strings, e.frameEnds, e.rawEnds)
  }

  /** Blocks are cut while the text nodes are at hand; the text stays as it is, beside the serialized rest. */
  method IntoSerialized(ser: Serializer, doc: Stored) returns (e: Entry)
    requires NodeRanges(doc.text.nodes, |doc.text.pool|) && |doc.text.pool| < U32
    ensures Raw(ser, e) && e.doc == doc
  {
    var rawEnds := BlockCuts(doc.text.nodes, |doc.text.pool|);
    e := Entry(doc, ser.putHtml(HtmlOf(doc)), doc.text.pool, [], rawEnds);
  }

  /** The one compression step of both phases: the text is replaced by its frames. */
  method CompressBlocks(ghost ser: Serializer, c: Codec, e: Entry) returns (r: Entry)
    requires Lossless(c) && Raw(ser, e)
    ensures Compressed(ser, c, r) && r.doc == e.doc
  {
    var frames, frameEnds := CompressPoolBlocks(c, e.strings, e.rawEnds);
    r := e.(strings := frames, frameEnds := frameEnds);
  }

  /** One run's documents with their rows, pushed in pairs, and how many were given up on. */
  datatype RunResult = RunResult(docs: seq<Entry>, rows: seq<Option<M.Row>>, failed: nat)

  ghost predicate Ready(ser: Serializer, c: Option<Codec>, e: Entry) {
    match c case Some(codec) => Compressed(ser, codec, e) case None => Raw(ser, e)
  }

  /** The result of a run: what arrived and parsed, in order and with its rows, the rest counted. */
  ghost predicate ResultOf(ser: Serializer, c: Option<Codec>, xs: seq<Arrival>, r: RunResult) {
    && |r.docs| == |r.rows| && Items(r) == Parsed(xs) && |r.docs| + r.failed == |xs|
    && forall i :: 0 <= i < |r.docs| ==> Ready(ser, c, r.docs[i])
  }

  lemma ParsedNext(xs: seq<Arrival>, k: nat)
    requires k < |xs|
    ensures Parsed(xs[..k + 1])
            == Parsed(xs[..k]) + match xs[k].parsed { case Some(doc) => [Item(doc, xs[k].row)] case None => [] }
  {
    assert xs[..k + 1][..k] == xs[..k];
  }

  lemma ItemsNext(r: RunResult, e: Entry, row: Option<seq<Option<M.Value>>>)
    requires |r.docs| == |r.rows|
    ensures Items(r.(docs := r.docs + [e], rows := r.rows + [row])) == Items(r) + [Item(e.doc, row)]
  {
  }

  /** One run driven into its sink: a document that fails takes its row with it, and is counted. */
  method DriveRun(ser: Serializer, xs: seq<Arrival>, c: Option<Codec>) returns (r: RunResult, ghost at: seq<nat>)
    requires (c.Some? ==> Lossless(c.value)) && forall i :: 0 <= i < |xs| ==> ArrivalOk(xs[i])
    ensures ResultOf(ser, c, xs, r)
    ensures ParsesAt(xs, at) && |r.docs| == |r.rows| == |at| && r.failed == |xs| - |at|
    ensures forall j :: 0 <= j < |at| ==> Some(r.docs[j].doc) == xs[at[j]].parsed && r.rows[j] == xs[at[j]].row
  {
    at := ParsedAt(xs);
    r := RunResult([], [], 0);
    for k := 0 to |xs|
      invariant |r.docs| == |r.rows| && Items(r) == Parsed(xs[..k]) && |r.docs| + r.failed == k
      invariant forall i :: 0 <= i < |r.docs| ==> Ready(ser, c, r.docs[i])
    {
      ParsedNext(xs, k);
      if xs[k].parsed.None? {
        r := r.(failed := r.failed + 1);
      } else {
        var e := IntoSerialized(ser, xs[k].parsed.value);
        if c.Some? {
          e := CompressBlocks(ser, c.value, e);
        }
        ItemsNext(r, e, xs[k].row);
        r := r.(docs := r.docs + [e], rows := r.rows + [xs[k].row]);
      }
    }
    assert xs[..|xs|] == xs;
    assert forall j :: 0 <= j < |at| ==> Items(r)[j] == Item(r.docs[j].doc, r.rows[j]);
  }

  /** A result ready to be written: its documents, compressed, are `items`. */
  ghost predicate Writable(ser: Serializer, c: Codec, r: RunResult, items: seq<Item>) {
    |r.docs| == |r.rows| && Items(r) == items && forall i :: 0 <= i < |r.docs| ==> Compressed(ser, c, r.docs[i])
  }

  /** A result of the warm-up: its text is yet to be compressed. */
  ghost predicate Buffered(ser: Serializer, r: RunResult, items: seq<Item>) {
    |r.docs| == |r.rows| && Items(r) == items && forall i :: 0 <= i < |r.docs| ==> Raw(ser, r.docs[i])
  }

  /** A warm-up run, whose text the coordinator compresses itself. */
  method CompressRun(ghost ser: Serializer, c: Codec, run: RunResult, ghost items: seq<Item>) returns (r: RunResult)
    requires Lossless(c) && Buffered(ser, run, items)
    ensures Writable(ser, c, r, items) && r.failed == run.failed
  {
    r := run.(docs := []);
    for k := 0 to |run.docs|
      invariant |r.docs| == k && r.rows == run.rows && r.failed == run.failed
      invariant forall i :: 0 <= i < k ==> Compressed(ser, c, r.docs[i]) && r.docs[i].doc == run.docs[i].doc
    {
      var e := CompressBlocks(ser, c, run.docs[k]);
      r := r.(docs := r.docs + [e]);
    }
    assert Items(r) == Items(run);
  }

  // ---- what is to be stored ----

  function Items(r: RunResult): (items: seq<Item>)
    ensures |r.docs| == |r.rows| ==> |items| == |r.docs| && forall i :: 0 <= i < |items| ==>
            items[i] == Item(r.docs[i].doc, r.rows[i])
  {
    var n := if |r.docs| < |r.rows| then |r.docs| else |r.rows|;
    seq(n, i requires 0 <= i < n => Item(r.docs[i].doc, r.rows[i]))
  }

  /** A missing row is a row of nulls. */
  function FullRow(schema: M.Schema, row: Option<M.Row>): M.Row {
    if row.Some? then row.value else A.Nulls(|schema|)
  }

  function Rows(schema: M.Schema, items: seq<Item>): (rows: seq<M.Row>)
    ensures |rows| == |items|
  {
    seq(|items|, i requires 0 <= i < |items| => FullRow(schema, items[i].row))
  }

  /** Each kept item's row fits behind the rows of those kept before it. */
  ghost predicate RowsFit(schema: M.Schema, items: seq<Item>) {
    M.AllFit(schema, Rows(schema, Kept(items)))
  }

  /** What has a refused row keeps it, whatever follows. */
  lemma StillUnfit(schema: M.Schema, items: seq<Item>, all: seq<Item>)
    requires items <= all && !RowsFit(schema, items)
    ensures !RowsFit(schema, all)
  {
    if RowsFit(schema, all) {
      assert all == items + all[|items|..];
      FreshMore(items, all[|items|..], KeyOf);
      M.FitPrefix(schema, Rows(schema, Kept(items)), Rows(schema, Kept(all)));
    }
  }

  lemma {:induction false} PrefixOfAll<X>(runs: seq<seq<X>>, k: nat)
    requires k <= |runs|
    ensures Flatten(runs[..k]) <= Flatten(runs)
    decreases |runs| - k
  {
    if k < |runs| {
      assert runs[..k + 1] == runs[..k] + [runs[k]];
      FlattenOne(runs[..k], runs[k]);
      PrefixOfAll(runs, k + 1);
    } else {
      assert runs[..k] == runs;
    }
  }

  /** The first items of a run, behind the runs before it, come first of all items. */
  lemma PrefixWithin<X>(runs: seq<seq<X>>, k: nat, n: nat)
    requires k < |runs| && n <= |runs[k]|
    ensures Flatten(runs[..k]) + runs[k][..n] <= Flatten(runs)
  {
    assert runs[..k + 1] == runs[..k] + [runs[k]];
    FlattenOne(runs[..k], runs[k]);
    PrefixOfAll(runs, k + 1);
    assert runs[k] == runs[k][..n] + runs[k][n..];
  }

  lemma OneMoreItem<X>(items: seq<X>, run: seq<X>, k: nat)
    requires k < |run|
    ensures items + run[..k] + [run[k]] == items + run[..k + 1]
  {
  }

  /** Some kept item's row is refused, or the schema has no fields though there are documents. */
  ghost predicate ConversionFails(schema: M.Schema, items: seq<Item>) {
    !RowsFit(schema, items) || (schema == [] && Kept(items) != [])
  }

  /** An item whose key is known already changes nothing. */
  lemma KnownItem(items: seq<Item>, x: Item)
    requires x.doc.key in Keys(items, KeyOf)
    ensures Kept(items + [x]) == Kept(items) && Keys(items + [x], KeyOf) == Keys(items, KeyOf)
  {
    FreshOne(items, x, KeyOf, {});
    assert {} + Keys(items, KeyOf) == Keys(items, KeyOf);
  }

  /** One with a new key is kept, and fits exactly if its row fits behind the others. */
  lemma NewItem(items: seq<Item>, x: Item, schema: M.Schema)
    requires x.doc.key !in Keys(items, KeyOf)
    ensures Kept(items + [x]) == Kept(items) + [x] && Keys(items + [x], KeyOf) == Keys(items, KeyOf) + {x.doc.key}
    ensures Docs(Kept(items) + [x]) == Docs(Kept(items)) + [x.doc]
    ensures Rows(schema, Kept(items) + [x]) == Rows(schema, Kept(items)) + [FullRow(schema, x.row)]
    ensures RowsFit(schema, items + [x])
            <==> RowsFit(schema, items) && !M.Refused(schema, Rows(schema, Kept(items)), FullRow(schema, x.row))
  {
    FreshOne(items, x, KeyOf, {});
    assert {} + Keys(items, KeyOf) == Keys(items, KeyOf);
    M.OneMoreFits(schema, Rows(schema, Kept(items)), FullRow(schema, x.row));
  }

  /** The items of the first `k` runs. */
  function ItemsUpto(runs: seq<seq<Item>>, k: nat): seq<Item>
    requires k <= |runs|
  {
    Flatten(runs[..k])
  }

  /** How many documents each of the first `k` runs adds, if it adds any. */
  ghost function SizesUpto(runs: seq<seq<Item>>, k: nat): seq<nat>
    requires k <= |runs|
  {
    Sizes(runs[..k], KeyOf)
  }

  // ---- the coordinator ----

  datatype Failure = RowRefused(why: M.Error) | FinishFailed(reason: Writer.Error)

  class Conversion {
    const writer: ArchiveWriter
    const meta: M.MetaTableBuilder?
    var exported: nat
    var failed: nat
    /** The items handed over so far, and how many documents each run that added any has added. */
    ghost var items: seq<Item>
    ghost var sizes: seq<nat>

    /** Of the items, the kept ones are stored and counted. */
    ghost predicate HoldsDocs()
      reads this`items, this`exported, writer, writer.curStrings
    {
      && writer.Valid() && writer.stored == Docs(Kept(items)) && writer.seen == Keys(items, KeyOf)
      && exported == |Kept(items)| && exported + writer.collapsed == |items|
    }

    /** Row `i` of the metadata is that of the document kept as number `i`. */
    ghost predicate HoldsRows()
      reads this`items, meta
    {
      meta != null ==> meta.Valid() && meta.rows == Rows(meta.schema, Kept(items)) && RowsFit(meta.schema, items)
    }

    ghost predicate Holds()
      reads this`items, this`exported, writer, writer.curStrings, meta
    {
      HoldsDocs() && HoldsRows()
    }

    /** Every document is in a sealed bundle, and each bundle is what one run added. */
    ghost predicate Valid()
      reads this`items, this`exported, this`sizes, writer, writer.curStrings, meta
    {
      Holds() && writer.bundleStartDoc == |writer.docs| && Counts(writer.bundles) == sizes
    }

    /** The first `k` runs have been handed over. */
    ghost predicate Upto(runs: seq<seq<Item>>, k: nat)
      requires k <= |runs|
      reads this`items, this`sizes
    {
      items == ItemsUpto(runs, k) && sizes == SizesUpto(runs, k)
    }

    /** Among the items so far there is one whose row was refused. */
    ghost predicate Stuck()
      reads this`items, meta
    {
      meta != null && !RowsFit(meta.schema, items)
    }

    ghost predicate StuckIn(runs: seq<seq<Item>>)
      reads this`items, meta
    {
      Stuck() && items <= Flatten(runs)
    }

    twostate predicate Framed()
      reads writer, meta
    {
      && (writer.curStrings == old(writer.curStrings) || fresh(writer.curStrings))
      && writer.dict == old(writer.dict) && (meta != null ==> meta.schema == old(meta.schema))
    }

    constructor (w: ArchiveWriter, m: M.MetaTableBuilder?)
      requires w.Valid() && w.stored == [] && w.seen == {} && w.collapsed == 0
               && (m != null ==> m.Valid() && m.rows == [])
      ensures Valid() && items == [] && sizes == [] && writer == w && meta == m && failed == 0
    {
      writer, meta, exported, failed, items, sizes := w, m, 0, 0, [], [];
      new;
      NoDocsNoBundles(w.fmt, w.out, w.View());
    }

    /** Stores a document unless its key is known. */
    method StoreDoc(e: Entry, ghost row: Option<M.Row>) returns (isNew: bool)
      requires HoldsDocs() && Compressed(writer.fmt.ser, writer.Encoder(), e)
      modifies this`exported, this`items, writer, writer.curStrings
      ensures HoldsDocs() && items == old(items) + [Item(e.doc, row)] && (isNew <==> e.doc.key !in old(writer.seen))
      ensures writer.curStrings == old(writer.curStrings) && writer.dict == old(writer.dict)
      ensures writer.bundles == old(writer.bundles) && writer.bundleStartDoc == old(writer.bundleStartDoc)
    {
      ghost var was, x := items, Item(e.doc, row);
      items := items + [x];
      var r := writer.PushSerialized(e.doc.key, e.doc.checksum, e.bytes, e.strings, e.frameEnds, e.rawEnds, e.doc);
      isNew := r == Ok(true);
      if isNew {
        NewItem(was, x, []);
        exported := exported + 1;
      } else {
        KnownItem(was, x);
      }
    }

    method AddRow(row: Option<M.Row>) returns (failure: Option<Failure>)
      requires meta != null && meta.Valid()
      modifies meta
      ensures meta.schema == old(meta.schema)
      ensures failure.Some? <==> M.Refused(meta.schema, old(meta.rows), FullRow(meta.schema, row))
      ensures failure == None ==> meta.Valid() && meta.rows == old(meta.rows) + [FullRow(meta.schema, row)]
    {
      var refused, k := meta.PushRow(FullRow(meta.schema, row));
      failure := if refused.Some? then Some(RowRefused(refused.value)) else None;
    }

    /** Stores a document and, only if it was really stored, its row. */
    method Store(e: Entry, row: Option<M.Row>) returns (failure: Option<Failure>)
      requires Holds() && Compressed(writer.fmt.ser, writer.Encoder(), e)
      modifies this`exported, this`items, writer, writer.curStrings, meta
      ensures writer.curStrings == old(writer.curStrings) && Framed() && items == old(items) + [Item(e.doc, row)]
      ensures failure == None ==> Holds()
      ensures failure.Some? <==> meta != null && e.doc.key !in old(writer.seen)
                                 && M.Refused(meta.schema, old(meta.rows), FullRow(meta.schema, row))
      ensures failure.Some? ==> Stuck()
      ensures writer.bundles == old(writer.bundles) && writer.bundleStartDoc == old(writer.bundleStartDoc)
    {
      ghost var was := items;
      var isNew := StoreDoc(e, row);
      if !isNew {
        KnownItem(was, Item(e.doc, row));
        return None;
      }
      NewItem(was, Item(e.doc, row), if meta == null then [] else meta.schema);
      if meta == null {
        return None;
      }
      failure := AddRow(row);
    }

    /** Stores a run's documents up to the first whose row is refused, number `n - 1`. */
    method StoreAll(run: RunResult, ghost run': seq<Item>) returns (failure: Option<Failure>, ghost n: nat)
      requires Holds() && Writable(writer.fmt.ser, writer.Encoder(), run, run')
      modifies this`exported, this`items, writer, writer.curStrings, meta
      ensures writer.curStrings == old(writer.curStrings) && Framed()
      ensures writer.bundles == old(writer.bundles) && writer.bundleStartDoc == old(writer.bundleStartDoc)
      ensures n <= |run'| && items == old(items) + run'[..n]
      ensures failure == None ==> Holds() && n == |run'|
      ensures failure.Some? ==> Stuck()
    {
      for k := 0 to |run.docs|
        invariant Holds() && items == old(items) + run'[..k] && writer.curStrings == old(writer.curStrings) && Framed()
        invariant writer.bundles == old(writer.bundles) && writer.bundleStartDoc == old(writer.bundleStartDoc)
      {
        OneMoreItem(old(items), run', k);
        failure := Store(run.docs[k], run.rows[k]);
        if failure.Some? {
          return failure, k + 1;
        }
      }
      return None, |run'|;
    }

    /** Seals what has been stored since the last seal; nothing, if that is nothing. */
    method SealRun(ghost n: nat)
      requires Holds() && writer.bundleStartDoc + n == |writer.stored| && Counts(writer.bundles) == sizes
      modifies this`sizes, writer
      ensures Valid() && Framed() && sizes == old(sizes) + NonZero(n) && items == old(items)
    {
      sizes := sizes + NonZero(n);
      writer.SealBundle();
    }

    /** Writes run number `k` and seals it as a bundle of its own. */
    method WriteRun(run: RunResult, ghost runs: seq<seq<Item>>, ghost k: nat) returns (failure: Option<Failure>)
      requires Valid() && k < |runs| && Upto(runs, k) && Writable(writer.fmt.ser, writer.Encoder(), run, runs[k])
      modifies this`exported, this`items, this`sizes, writer, writer.curStrings, meta
      ensures Framed()
      ensures failure == None ==> Valid() && Upto(runs, k + 1)
      ensures failure.Some? ==> StuckIn(runs)
    {
      RunAdded(runs, k, KeyOf);
      FreshMore(items, runs[k], KeyOf);
      ghost var n := Added(items, runs[k], KeyOf);
      ghost var m;
      failure, m := StoreAll(run, runs[k]);
      if failure == None {
        assert runs[k][..m] == runs[k];
        SealRun(n);
      } else {
        PrefixWithin(runs, k, m);
      }
    }

    /** A buffered run, compressed and written. */
    method OnBuffered(encoder: Codec, run: RunResult, ghost runs: seq<seq<Item>>, ghost k: nat)
        returns (failure: Option<Failure>)
      requires Valid() && k < |runs| && Upto(runs, k) && encoder == writer.Encoder()
               && Buffered(writer.fmt.ser, run, runs[k])
      modifies this, writer, writer.curStrings, meta
      ensures Framed()
      ensures failure == None ==> Valid() && Upto(runs, k + 1) && failed == old(failed) + run.failed
      ensures failure.Some? ==> StuckIn(runs)
    {
      var r := CompressRun(writer.fmt.ser, encoder, run, runs[k]);
      failure := WriteRun(r, runs, k);
      if failure == None {
        CountFailed(run.failed);
      }
    }

    /** Documents that did not parse are counted, whatever else has happened. */
    method CountFailed(n: nat)
      modifies this`failed
      ensures failed == old(failed) + n && (old(Valid()) ==> Valid())
    {
      failed := failed + n;
    }

    /** The buffered runs, one by one; the first failure ends the conversion. */
    method WriteWarm(encoder: Codec, warm: seq<RunResult>, ghost runs: seq<seq<Item>>)
        returns (failure: Option<Failure>)
      requires Valid() && Upto(runs, 0) && encoder == writer.Encoder() && |warm| <= |runs|
      requires forall k :: 0 <= k < |warm| ==> Buffered(writer.fmt.ser, warm[k], runs[k])
      modifies this, writer, writer.curStrings, meta
      ensures Framed()
      ensures failure == None ==> Valid() && Upto(runs, |warm|)
      ensures failure.Some? ==> StuckIn(runs)
    {
      for k := 0 to |warm|
        invariant Valid() && Upto(runs, k) && Framed()
      {
        failure := OnBuffered(encoder, warm[k], runs, k);
        if failure.Some? {
          return;
        }
      }
      return None;
    }

    /** The coordinator's callback: a result is written, or after a failure only counted. */
    method OnResult(run: RunResult, was: Option<Failure>, ghost runs: seq<seq<Item>>, ghost k: nat)
        returns (failure: Option<Failure>)
      requires k < |runs| && (was == None ==> Valid() && Upto(runs, k))
               && Writable(writer.fmt.ser, writer.Encoder(), run, runs[k])
      modifies this, writer, writer.curStrings, meta
      ensures Framed() && failed == old(failed) + run.failed
      ensures failure == None ==> Valid() && Upto(runs, k + 1)
      ensures (was.Some? ==> failure == was && items == old(items)) && (was == None && failure.Some? ==> StuckIn(runs))
    {
      failure := was;
      if failure == None {
        failure := WriteRun(run, runs, k);
      }
      CountFailed(run.failed);
    }

    /** The results of the remaining runs, as the driver emits them. */
    method WriteStreamed(from: nat, streamed: seq<RunResult>, ghost runs: seq<seq<Item>>)
        returns (failure: Option<Failure>)
      requires Valid() && from + |streamed| == |runs| && Upto(runs, from)
      requires forall n :: from <= n < |runs| ==>
               Writable(writer.fmt.ser, writer.Encoder(), streamed[n - from], runs[n])
      modifies this, writer, writer.curStrings, meta
      ensures Framed()
      ensures failure == None ==> Valid() && Upto(runs, |runs|)
      ensures failure.Some? ==> StuckIn(runs)
    {
      failure := None;
      var n := from;
      while n < from + |streamed|
        invariant from <= n <= |runs| && Framed()
        invariant failure == None ==> Valid() && Upto(runs, n)
        invariant failure.Some? ==> StuckIn(runs)
      {
        failure := OnResult(streamed[n - from], failure, runs, n);
        n := n + 1;
      }
      assert n == |runs|;
    }

    /** All runs: the buffered ones first, then the streamed ones. */
    method WriteAll(encoder: Codec, warm: seq<RunResult>, streamed: seq<RunResult>, ghost runs: seq<seq<Item>>)
        returns (failure: Option<Failure>)
      requires Valid() && |warm| + |streamed| == |runs| && Upto(runs, 0) && encoder == writer.Encoder()
      requires forall k :: 0 <= k < |warm| ==> Buffered(writer.fmt.ser, warm[k], runs[k])
      requires forall n :: |warm| <= n < |runs| ==>
               Writable(writer.fmt.ser, writer.Encoder(), streamed[n - |warm|], runs[n])
      modifies this, writer, writer.curStrings, meta
      ensures Framed()
      ensures failure == None ==> Valid() && Upto(runs, |runs|)
      ensures failure.Some? ==> StuckIn(runs)
    {
      failure := WriteWarm(encoder, warm, runs);
      if failure == None {
        failure := WriteStreamed(|warm|, streamed, runs);
      }
    }

    /** The archive and the table are those of `all`, one bundle for each of the counts. */
    ghost predicate Wrote(all: seq<Item>, counts: seq<nat>)
      reads writer, meta
    {
      && writer.stored == Docs(Kept(all)) && Counts(writer.bundles) == counts
      && (meta != null ==> meta.Valid() && meta.rows == Rows(meta.schema, Kept(all))
                           && M.TableSound(M.TableOf(meta.schema, meta.columns), |Kept(all)|))
    }

    /** The finished table goes to the writer, which checks its row count and writes the footer. */
    method Finish() returns (r: Result<Bytes, Failure>, ghost footer: Footer)
      requires Valid()
      modifies writer
      ensures r.Ok? ==> FinishedAs(writer.fmt, r.value, writer.View(), footer) && footer.dict == old(writer.dict)
      ensures r.Ok? ==> footer.meta == if meta == null then None else Some(M.TableOf(meta.schema, meta.columns))
      ensures Wrote(items, sizes)
      ensures r.Err? <==> meta != null && ConversionFails(meta.schema, items)
    {
      writer.meta := if meta == null then None else Some(meta.Finish());
      if meta != null {
        M.RowCountIs(meta.schema, meta.columns, meta.rows);
        M.FinishedTableReads(meta.schema, meta.columns, meta.rows);
      }
      var file;
      file, footer := writer.FinishSealed();
      return match file { case Ok(bytes) => Ok(bytes) case Err(e) => Err(FinishFailed(e)) }, footer;
    }

    /** Writes all runs and finishes, or stops at the first refused row. */
    method WriteAndFinish(encoder: Codec, warm: seq<RunResult>, streamed: seq<RunResult>, ghost runs: seq<seq<Item>>)
        returns (r: Result<Bytes, Failure>, ghost footer: Footer)
      requires Valid() && |warm| + |streamed| == |runs| && Upto(runs, 0) && encoder == writer.Encoder()
      requires forall k :: 0 <= k < |warm| ==> Buffered(writer.fmt.ser, warm[k], runs[k])
      requires forall n :: |warm| <= n < |runs| ==>
               Writable(writer.fmt.ser, writer.Encoder(), streamed[n - |warm|], runs[n])
      modifies this, writer, writer.curStrings, meta
      ensures meta != null ==> meta.schema == old(meta.schema)
      ensures r.Ok? ==> FinishedAs(writer.fmt, r.value, writer.View(), footer) && footer.dict == old(writer.dict)
      ensures r.Ok? ==> footer.meta == if meta == null then None else Some(M.TableOf(meta.schema, meta.columns))
      ensures r.Ok? ==> Wrote(Flatten(runs), Sizes(runs, KeyOf))
      ensures r.Err? <==> meta != null && ConversionFails(old(meta.schema), Flatten(runs))
    {
      footer := Footer(EmptyTrailer(), [], None, None);
      var failure := WriteAll(encoder, warm, streamed, runs);
      if failure.Some? {
        StillUnfit(old(meta.schema), items, Flatten(runs));
        return Err(failure.value), footer;
      }
      assert runs[..|runs|] == runs;
      r, footer := Finish();
    }

    /** Before anything is stored: the dictionary the coordinator and the workers compress with. */
    method UseDictionary(dict: Option<Bytes>, ghost runs: seq<seq<Item>>) returns (encoder: Codec)
      requires Valid() && items == [] && sizes == [] && dict != Some([])
      modifies writer`dict, writer.curStrings
      ensures Valid() && Upto(runs, 0) && writer.dict == dict
      ensures encoder == writer.fmt.codecOf(dict) && encoder == writer.Encoder() && Lossless(encoder)
    {
      encoder := writer.fmt.codecOf(dict);
      writer.SetDictionary(dict);
      assert runs[..0] == [];
    }

    /**
     The archive holds, of each key, the first document any run yields, in rank order, each with its
     row, and one bundle for every run that adds a document. All text is compressed with the dictionary
     trained from the warm-up, the workers' (`streamed`) as well as the coordinator's, and the
     trailer names that dictionary.
     */
    method Run(source: Source, fromSamples: seq<Bytes> -> Option<Bytes>, warm: seq<RunResult>,
        streamed: seq<RunResult>)
        returns (r: Result<Bytes, Failure>, ghost footer: Footer)
      requires Valid() && items == [] && sizes == [] && |warm| + |streamed| == |source|
      requires Results(writer.fmt.ser, None, source, 0, warm)
      requires Results(writer.fmt.ser, Some(writer.fmt.codecOf(Trained(fromSamples, warm))), source, |warm|, streamed)
      modifies this, writer, writer.curStrings, meta
      ensures r.Ok? ==>
              FinishedAs(writer.fmt, r.value, writer.View(), footer) && footer.dict == Trained(fromSamples, warm)
      ensures r.Ok? ==> Wrote(Flatten(AllParsed(source)), Sizes(AllParsed(source), KeyOf))
      ensures r.Ok? ==> footer.meta == if meta == null then None else Some(M.TableOf(meta.schema, meta.columns))
      ensures meta != null ==> meta.schema == old(meta.schema)
      ensures r.Err? <==> meta != null && ConversionFails(old(meta.schema), Flatten(AllParsed(source)))
    {
      ghost var runs := AllParsed(source);
      var dict := TrainStringDict(fromSamples, Samples(warm));
      var encoder := UseDictionary(dict, runs);
      ResultsFit(writer.fmt.ser, source, encoder, warm, streamed);
      r, footer := WriteAndFinish(encoder, warm, streamed, runs);
    }
  }

  // ---- the whole conversion ----

  const DICT_SAMPLE_DOCS: nat := 2000

  ghost predicate SourceOk(source: Source) {
    forall r, i :: 0 <= r < |source| && 0 <= i < |source[r]| ==> ArrivalOk(source[r][i])
  }

  const DICT_MIN_SAMPLE_BYTES: nat := 4_194_304

  /** The texts of the warm-up, document by document. */
  function Samples(warm: seq<RunResult>): seq<Bytes> {
    if warm == [] then [] else Samples(warm[..|warm| - 1]) + Texts(warm[|warm| - 1].docs)
  }

  function Texts(docs: seq<Entry>): (texts: seq<Bytes>)
    ensures |texts| == |docs|
  {
    seq(|docs|, i requires 0 <= i < |docs| => docs[i].strings)
  }

  function Usable(samples: seq<Bytes>): nat {
    if samples == [] then 0 else Usable(samples[1..]) + if samples[0] == [] then 0 else 1
  }

  function TotalSize(samples: seq<Bytes>): nat {
    if samples == [] then 0 else |samples[0]| + TotalSize(samples[1..])
  }

  /** The samples that are not empty, and all their bytes. */
  lemma {:induction false} SamplesCounted(samples: seq<Bytes>)
    ensures Usable(samples) == |samples| - multiset(samples)[[]] && TotalSize(samples) == |Flatten(samples)|
  {
    if samples != [] {
      SamplesCounted(samples[1..]);
      assert samples == [samples[0]] + samples[1..];
    }
  }

  /** A dictionary, unless there is too little to train on or training fails; never an empty one. */
  function TrainStringDict(fromSamples: seq<Bytes> -> Option<Bytes>, samples: seq<Bytes>): (dict: Option<Bytes>)
    ensures dict.Some? <==>
            Usable(samples) >= 8 && TotalSize(samples) >= 4_194_304 && fromSamples(samples) !in {None, Some([])}
    ensures dict.Some? ==> dict == fromSamples(samples) && dict != Some([])
  {
    if Usable(samples) < 8 || TotalSize(samples) < DICT_MIN_SAMPLE_BYTES then None else NonEmpty(fromSamples(samples))
  }

  function Trained(fromSamples: seq<Bytes> -> Option<Bytes>, warm: seq<RunResult>): Option<Bytes> {
    TrainStringDict(fromSamples, Samples(warm))
  }

  function DocCount(results: seq<RunResult>): nat {
    if results == [] then 0 else DocCount(results[..|results| - 1]) + |results[|results| - 1].docs|
  }

  /** The results of the runs from `from` on. */
  ghost predicate Results(ser: Serializer, c: Option<Codec>, source: Source, from: nat, rs: seq<RunResult>) {
    from + |rs| <= |source| && forall k :: 0 <= k < |rs| ==> ResultOf(ser, c, source[from + k], rs[k])
  }

  /** The results of the fewest leading runs with 2,000 documents, or of all runs. */
  ghost predicate Sampled(ser: Serializer, source: Source, warm: seq<RunResult>) {
    && Results(ser, None, source, 0, warm) && (|warm| < |source| ==> DocCount(warm) >= 2000)
    && (warm != [] ==> DocCount(warm[..|warm| - 1]) < 2000)
  }

  /** Runs are parsed one by one until there is text enough to train the dictionary, or no run is left. */
  method WarmUp(ser: Serializer, source: Source) returns (warm: seq<RunResult>)
    requires SourceOk(source)
    ensures Sampled(ser, source, warm)
  {
    warm := [];
    var count := 0;
    while |warm| < |source| && count < DICT_SAMPLE_DOCS
      invariant |warm| <= |source| && count == DocCount(warm)
      invariant forall k :: 0 <= k < |warm| ==> ResultOf(ser, None, source[k], warm[k])
      invariant warm != [] ==> DocCount(warm[..|warm| - 1]) < DICT_SAMPLE_DOCS
    {
      var r, at := DriveRun(ser, source[|warm|], None);
      count := count + |r.docs|;
      warm := warm + [r];
      assert warm[..|warm| - 1] + [r] == warm;
    }
  }

  /**
   However the workers are scheduled, the coordinator is handed the remaining runs in rank order,
   all of them, each compressed with the one shared encoder.
   */
  lemma StreamedInOrder(c: D.Config<RunResult>, run: seq<D.State<RunResult>>, i: nat, source: Source,
                        ser: Serializer, encoder: Codec)
    requires D.Run(c, run) && i < |run| && run[i].coordinator.Finished? && c.end == |source|
    requires forall rank: nat :: c.start <= rank < c.end ==> ResultOf(ser, Some(encoder), source[rank], c.process(rank))
    ensures c.start + |run[i].emitted| == |source| && Results(ser, Some(encoder), source, c.start, run[i].emitted)
  {
    D.FinishedIsComplete(c, run, i);
  }

  /** The results of a source's runs are ready to be buffered or written. */
  lemma ResultsFit(ser: Serializer, source: Source, c: Codec, warm: seq<RunResult>, streamed: seq<RunResult>)
    requires |warm| + |streamed| == |source| && Results(ser, None, source, 0, warm)
             && Results(ser, Some(c), source, |warm|, streamed)
    ensures forall k :: 0 <= k < |warm| ==> Buffered(ser, warm[k], AllParsed(source)[k])
    ensures forall n :: |warm| <= n < |source| ==> Writable(ser, c, streamed[n - |warm|], AllParsed(source)[n])
  {
    forall k | 0 <= k < |warm| ensures Buffered(ser, warm[k], AllParsed(source)[k]) {
      assert ResultOf(ser, None, source[0 + k], warm[k]);
    }
    forall n | |warm| <= n < |source| ensures Writable(ser, c, streamed[n - |warm|], AllParsed(source)[n]) {
      assert ResultOf(ser, Some(c), source[|warm| + (n - |warm|)], streamed[n - |warm|]);
    }
  }

  // ---- from a source to a file ----

  /** A finished schedule of the parallel driver over the runs from `from` on, and what it emitted. */
  ghost predicate Schedule(ser: Serializer, encoder: Codec, source: Source, from: nat,
      c: D.Config<RunResult>, run: seq<D.State<RunResult>>, i: nat, emitted: seq<RunResult>)
  {
    && c.start == from && c.end == |source| && D.Run(c, run) && i < |run| && run[i].coordinator.Finished?
    && run[i].emitted == emitted
    && forall rank: nat :: from <= rank < |source| ==> ResultOf(ser, Some(encoder), source[rank], c.process(rank))
  }

  /** What some finished schedule hands to the coordinator; without runs left there is nothing to schedule. */
  ghost predicate Delivered(ser: Serializer, encoder: Codec, source: Source, from: nat,
      emitted: seq<RunResult>)
  {
    if from == |source| then emitted == []
    else exists c, run, i :: Schedule(ser, encoder, source, from, c, run, i, emitted)
  }

  lemma DeliveredInOrder(ser: Serializer, encoder: Codec, source: Source, from: nat,
      emitted: seq<RunResult>)
    requires from <= |source| && Delivered(ser, encoder, source, from, emitted)
    ensures from + |emitted| == |source| && Results(ser, Some(encoder), source, from, emitted)
  {
    if from < |source| {
      var c, run, i :| Schedule(ser, encoder, source, from, c, run, i, emitted);
      StreamedInOrder(c, run, i, source, ser, encoder);
    }
  }

  /** The table has the schema, and cell by cell the rows the documents arrived with; without a row, nulls. */
  ghost predicate TableFrom(t: M.Table, schema: M.Schema, source: Source, origin: seq<Place>)
    requires forall i :: 0 <= i < |origin| ==> Parses(source, origin[i])
  {
    && M.SchemaOf(t) == Some(schema) && M.TableSound(t, |origin|) && |t.columns| == |schema|
    && forall i, f :: 0 <= i < |origin| && 0 <= f < |schema| ==> CellFrom(t, source, origin, i, f)
  }

  /** Cell `f` of row `i` reads as it arrived. */
  ghost predicate CellFrom(t: M.Table, source: Source, origin: seq<Place>, i: nat, f: nat)
    requires i < |origin| && Parses(source, origin[i]) && f < |t.columns|
  {
    && M.ColumnSound(t.columns[f]) && i < M.Rows(t.columns[f])
    && match ArrivalAt(source, origin[i]).row
       case Some(row) => f < |row| && M.ArchivedValue(t.columns[f], i) == row[f]
       case None => M.ArchivedValue(t.columns[f], i) == None
  }

  lemma FinishedReads(schema: M.Schema, columns: seq<M.Column>, items: seq<Item>, source: Source, origin: seq<Place>)
    requires M.Rectangular(schema, columns, Rows(schema, items)) && RowsFrom(source, items, origin)
    ensures TableFrom(M.TableOf(schema, columns), schema, source, origin)
  {
    M.FinishedTableReads(schema, columns, Rows(schema, items));
    forall i, f | 0 <= i < |origin| && 0 <= f < |schema|
        ensures CellFrom(M.TableOf(schema, columns), source, origin, i, f) {
      assert M.ColumnHolds(schema, columns, Rows(schema, items), f);
      assert Rows(schema, items)[i] == FullRow(schema, items[i].row);
    }
  }

  // ---- why a conversion fails ----

  /** The value is not of the field's type. */
  predicate Mistyped(v: M.Value, ty: M.MetaType) {
    match v
    case StrVal(_) => !ty.StrType?
    case IntVal(_) => !ty.IntType?
    case FloatVal(_) => !ty.FloatType?
    case BoolVal(_) => !ty.BoolType?
  }

  /** The row that arrived has the wrong number of cells, or a cell of another type than its field's. */
  ghost predicate BadRow(schema: M.Schema, row: Option<M.Row>) {
    row.Some? && (|row.value| != |schema| || exists f :: 0 <= f < |schema| && BadCell(schema, row.value, f))
  }

  predicate BadCell(schema: M.Schema, row: M.Row, f: nat)
    requires f < |row| == |schema|
  {
    row[f].Some? && Mistyped(row[f].value, schema[f].ty)
  }

  ghost function RowThere(source: Source, p: Place): Option<M.Row> {
    if Parses(source, p) then ArrivalAt(source, p).row else None
  }

  /** How much text of field `f` arrived with the documents kept. */
  ghost function TextKept(source: Source, origin: seq<Place>, f: nat): nat {
    if origin == [] then 0
    else
      var row := RowThere(source, origin[|origin| - 1]);
      TextKept(source, origin[..|origin| - 1], f)
        + if row.Some? && f < |row.value| && row.value[f].Some? && row.value[f].value.StrVal?
          then |row.value[f].value.s| else 0
  }

  /**
   Some document kept arrived with a bad row, or the texts of one string field are 4 GiB together, or the
   schema has no fields, so that the table does not count the documents there are.
   */
  ghost predicate Unstorable(schema: M.Schema, source: Source, origin: seq<Place>) {
    || (exists i :: 0 <= i < |origin| && BadRow(schema, RowThere(source, origin[i])))
    || (exists f :: 0 <= f < |schema| && schema[f].ty.StrType? && TextKept(source, origin, f) >= 0x1_0000_0000)
    || (schema == [] && origin != [])
  }

  lemma ShapeIs(schema: M.Schema, row: Option<M.Row>)
    ensures M.WellShaped(schema, FullRow(schema, row)) <==> !BadRow(schema, row)
  {
    if row.Some? && |row.value| == |schema| {
      forall f | 0 <= f < |schema| ensures M.FieldFits(schema, row.value, f) <==> !BadCell(schema, row.value, f) {
      }
    }
  }

  lemma {:induction false} TextIs(schema: M.Schema, source: Source, items: seq<Item>, origin: seq<Place>, f: nat)
    requires RowsFrom(source, items, origin) && f < |schema|
    ensures M.FieldText(Rows(schema, items), f) == TextKept(source, origin, f)
  {
    if items != [] {
      var n := |items| - 1;
      TextIs(schema, source, items[..n], origin[..n], f);
      assert Rows(schema, items)[..n] == Rows(schema, items[..n]);
      assert Rows(schema, items)[n] == FullRow(schema, items[n].row);
    }
  }

  /** When a conversion fails, told from what arrived. */
  lemma FailsIff(schema: M.Schema, source: Source, items: seq<Item>, origin: seq<Place>)
    requires RowsFrom(source, Kept(items), origin)
    ensures ConversionFails(schema, items) <==> Unstorable(schema, source, origin)
  {
    var rows := Rows(schema, Kept(items));
    M.AllFitIs(schema, rows);
    forall i | 0 <= i < |origin|
        ensures M.WellShaped(schema, rows[i]) <==> !BadRow(schema, RowThere(source, origin[i])) {
      ShapeIs(schema, Kept(items)[i].row);
    }
    forall f | 0 <= f < |schema| ensures M.FieldText(rows, f) == TextKept(source, origin, f) {
      TextIs(schema, source, Kept(items), origin, f);
    }
  }

  lemma KeptAll(source: Source)
    ensures KeptUpto(source, |source|) == Kept(Flatten(AllParsed(source)))
  {
    assert AllParsed(source)[..|source|] == AllParsed(source);
  }

  /** Where each document kept and its row come from, which run each bundle is of, and whether all can be stored. */
  lemma Origins(source: Source, schema: M.Schema) returns (origin: seq<Place>, runs: seq<nat>)
    requires SourceOk(source)
    ensures ComesFrom(source, |source|, Docs(KeptUpto(source, |source|)), origin)
    ensures PerRun(Sizes(AllParsed(source), KeyOf), origin, runs)
    ensures RowsFrom(source, KeptUpto(source, |source|), origin)
    ensures ConversionFails(schema, Flatten(AllParsed(source))) <==> Unstorable(schema, source, origin)
  {
    origin, runs := KeptFrom(source, |source|);
    assert AllParsed(source)[..|source|] == AllParsed(source);
    FailsIff(schema, source, Flatten(AllParsed(source)), origin);
  }

  /**
   The whole conversion, however the workers are scheduled: `deliver` may hand over what any finished
   schedule emits. What the file holds, and whether there is one, is told from the source alone: of
   each key the first document to arrive, in the order of arrival, each with the row it arrived with,
   and what one run adds is one bundle.
   */
  method ConvertSource(fmt: Format, schema: Option<M.Schema>, source: Source,
      fromSamples: seq<Bytes> -> Option<Bytes>, deliver: (nat, Option<Bytes>) -> seq<RunResult>)
      returns (r: Result<Bytes, Failure>, ghost c: Contents, ghost footer: Footer, ghost origin: seq<Place>,
      ghost runs: seq<nat>, ghost sampled: seq<RunResult>)
    requires Trusted(fmt) && SourceOk(source)
    requires forall from: nat, dict :: from <= |source| ==>
             Delivered(fmt.ser, fmt.codecOf(dict), source, from, deliver(from, dict))
    ensures ComesFrom(source, |source|, Docs(KeptUpto(source, |source|)), origin)
    ensures r.Err? <==> schema.Some? && ConversionFails(schema.value, Flatten(AllParsed(source)))
    ensures r.Err? <==> schema.Some? && Unstorable(schema.value, source, origin)
    ensures r.Ok? ==> FinishedAs(fmt, r.value, c, footer) && c.stored == Docs(KeptUpto(source, |source|))
    ensures r.Ok? ==> Counts(c.bundles) == Sizes(AllParsed(source), KeyOf) && PerRun(Counts(c.bundles), origin, runs)
    ensures Sampled(fmt.ser, source, sampled) && (r.Ok? ==> footer.dict == Trained(fromSamples, sampled))
    ensures r.Ok? ==> footer.meta.Some? == schema.Some?
    ensures r.Ok? && schema.Some? ==> TableFrom(footer.meta.value, schema.value, source, origin)
  {
    var writer := new ArchiveWriter.Create(fmt);
    var meta: M.MetaTableBuilder? := null;
    if schema.Some? {
      meta := new M.MetaTableBuilder(schema.value);
    }
    var conversion := new Conversion(writer, meta);
    var warm := WarmUp(fmt.ser, source);
    sampled := warm;
    var dict := TrainStringDict(fromSamples, Samples(warm));
    var streamed := deliver(|warm|, dict);
    DeliveredInOrder(fmt.ser, fmt.codecOf(dict), source, |warm|, streamed);
    r, footer := conversion.Run(source, fromSamples, warm, streamed);
    c := writer.View();
    KeptAll(source);
    origin, runs := Origins(source, if schema.Some? then schema.value else []);
    if r.Ok? && meta != null {
      FinishedReads(schema.value, meta.columns, KeptUpto(source, |source|), source, origin);
    }
  }
}
