/**
 The streaming writer: documents are appended as they come, grouped into bundles, and the footer
 is written last. The file is the byte sequence `out`; its length is the running position.
 */
module Writer {
  import opened Wrappers
  import opened LittleEndian
  import opened TextBlocks
  import opened DocTable
  import opened Layout
  import B = BundleStrings
  import M = Meta
  import T = Trailer

  datatype Error = NeverCompressed(key: Key) | RowCountMismatch

  class ArchiveWriter {
    const fmt: Format
    var out: Bytes
    var docs: seq<DocEntry>
    var bundles: seq<BundleDesc>
    var curStrings: B.BundleStrings
    /** The dictionary of the writer's own compressor, fixed when the writer is opened. */
    const compressor: Option<Bytes>
    /** The dictionary the trailer will name. */
    var dict: Option<Bytes>
    var meta: Option<M.Table>
    var bundleStartDoc: nat
    var seen: set<Key>
    var collapsed: nat
    ghost var blocks: seq<B.Tables>
    ghost var stored: seq<Stored>

    ghost function View(): Contents
      reads this
    {
      Contents(docs, bundles, blocks, stored, NonEmpty(dict))
    }

    /** The tables say what is in the file, and every key is known. */
    ghost predicate FileValid()
      reads this
    {
      && Trusted(fmt) && |out| % 8 == 0 && T.HEADER_LEN <= |out|
      && ContentsOk(fmt, out, View())
      && bundleStartDoc == Covered(bundles, |bundles|) <= |docs|
      && forall i :: 0 <= i < |docs| ==> docs[i].key in seen
    }

    /** Besides, the open bundle's text block holds the texts since the last seal. */
    ghost predicate Valid()
      reads this, curStrings
    {
      && FileValid()
      && curStrings.Valid() && curStrings.codec == fmt.codecOf(NonEmpty(dict))
      && curStrings.texts == TextsOf(stored[bundleStartDoc..])
    }

    constructor Create(f: Format)
      requires Trusted(f)
      ensures Valid() && fresh(curStrings) && fmt == f && stored == [] && out == T.HeaderBytes()
      ensures seen == {} && dict == None && compressor == None && meta == None && collapsed == 0
    {
      fmt, out, docs, bundles, dict, meta, compressor := f, T.HeaderBytes(), [], [], None, None, None;
      bundleStartDoc, seen, collapsed, blocks, stored := 0, {}, 0, [], [];
      curStrings := new B.BundleStrings(f.codecOf(None));
    }

    /** Continues a finished file: everything it holds is kept, and its keys count as seen. */
    constructor Resume(f: Format, prefix: Bytes, ds: seq<DocEntry>, bs: seq<BundleDesc>, d: Option<Bytes>,
        ghost c: Contents)
      requires Trusted(f) && T.HEADER_LEN <= |prefix| && ContentsOk(f, prefix, c)
      requires ds == c.docs && bs == c.bundles && d == c.dict && Covered(c.bundles, |c.bundles|) == |c.docs|
               && d != Some([])
      ensures Valid() && fresh(curStrings) && fmt == f && View() == c && dict == d && compressor == d && meta == None
      ensures prefix <= out && |out| < |prefix| + 8 && collapsed == 0 && bundleStartDoc == |ds|
              && seen == set x | x in ds :: x.key
    {
      fmt, out, docs, bundles, dict, meta, compressor := f, prefix, ds, bs, d, None, d;
      bundleStartDoc, seen, collapsed, blocks, stored := |ds|, set x | x in ds :: x.key, 0, c.blocks, c.stored;
      curStrings := new B.BundleStrings(f.codecOf(d));
      new;
      PadToAlign();
      PrefixKept(f, prefix, out, c);
      assert c == View() && stored[bundleStartDoc..] == [];
    }

    /** The dictionary of the trailer can be chosen as long as nothing has been compressed with another. */
    method SetDictionary(d: Option<Bytes>)
      requires Valid() && (stored == [] || NonEmpty(d) == NonEmpty(dict))
      modifies this`dict, curStrings
      ensures Valid() && dict == d && View() == old(View()).(dict := NonEmpty(d))
    {
      NoDocsNoBundles(fmt, out, View());
      if NonEmpty(d) != NonEmpty(dict) {
        curStrings.Rebind(fmt.codecOf(NonEmpty(d)));
      }
      dict := d;
    }

    /** Zero bytes up to the next multiple of 8. */
    method PadToAlign()
      modifies this`out
      ensures |out| % 8 == 0 && |old(out)| <= |out| < |old(out)| + 8 && out == old(out) + Zeros(|out| - |old(out)|)
    {
      var rem := |out| % 8;
      if rem != 0 {
        out := out + Zeros(8 - rem);
      }
    }

    /** Pads, then writes; the region returned is where the bytes went. */
    method WriteBlob(bytes: Bytes) returns (off: nat, len: nat)
      modifies this`out
      ensures off % 8 == 0 && |old(out)| <= off < |old(out)| + 8 && len == |bytes|
      ensures out == old(out) + Zeros(off - |old(out)|) + bytes && (|old(out)| % 8 == 0 ==> off == |old(out)|)
      ensures old(out) <= out && (T.HEADER_LEN <= |old(out)| ==> RegionIs(out, off, len, bytes)) && off + len == |out|
    {
      PadToAlign();
      off := |out|;
      len := |bytes|;
      RegionWrittenHere(out, bytes);
      out := out + bytes;
    }

    /** One row more, for a blob that starts at `off`. */
    ghost predicate RowAt(was: seq<DocEntry>, off: nat)
      reads this`docs
    {
      |docs| == |was| + 1 && docs[..|was|] == was && docs[|was|].off == off
    }

    /** Writes the blob, pads and records its row. */
    method StoreBlob(key: Key, checksum: nat, bytes: Bytes, ghost s: Stored)
      requires FileValid() && key in seen && forall i :: 0 <= i < |docs| ==> docs[i].key != key
      requires s.key == key && s.checksum == checksum && bytes == fmt.ser.putHtml(HtmlOf(s))
      modifies this`out, this`docs, this`stored
      ensures FileValid() && stored == old(stored) + [s] && old(out) <= out && RowAt(old(docs), |old(out)|)
    {
      ghost var was, view := out, View();
      var off := |out|;
      out := out + bytes;
      PadToAlign();
      docs := docs + [DocEntry(key, fmt.graphemes(key), checksum, off, |bytes|)];
      stored := stored + [s];
      DocWritten(fmt, was, bytes, Zeros(|out| - |was| - |bytes|), view, docs[|docs| - 1], s);
    }

    /** Writes the blob, records its row and hands its text blocks to the current bundle. */
    method WriteDocBlocks(key: Key, checksum: nat, bytes: Bytes, frames: Bytes, frameEnds: seq<nat>, rawEnds: seq<nat>,
        ghost s: Stored)
      requires Valid() && key in seen && forall i :: 0 <= i < |docs| ==> docs[i].key != key
      requires s.key == key && s.checksum == checksum && bytes == fmt.ser.putHtml(HtmlOf(s))
      requires FramesFor(Encoder(), s.text.pool, frames, frameEnds, rawEnds) && SplitsNone(rawEnds, s.text.nodes)
      modifies this`out, this`docs, this`stored, curStrings
      ensures Valid() && stored == old(stored) + [s] && old(out) <= out && RowAt(old(docs), |old(out)|)
    {
      OneMoreText(stored, s, bundleStartDoc);
      StoreBlob(key, checksum, bytes, s);
      var _ := curStrings.PushDocBlocks(frames, frameEnds, rawEnds, s.text);
    }

    /** What the frames of this archive decode with. */
    ghost function Encoder(): Codec
      reads this
    {
      fmt.codecOf(NonEmpty(dict))
    }

    /** Counts a duplicate. */
    method Collapse(key: Key)
      requires Valid() && key in seen
      modifies this`collapsed
      ensures Valid() && collapsed == old(collapsed) + 1 && seen == seen + {key}
    {
      collapsed := collapsed + 1;
    }

    /** Records a new key. */
    method Remember(key: Key)
      requires Valid() && key !in seen
      modifies this`seen
      ensures Valid() && seen == old(seen) + {key} && forall i :: 0 <= i < |docs| ==> docs[i].key != key
    {
      seen := seen + {key};
    }

    /**
     First key wins; a duplicate is counted and dropped. The writer compresses with its own
     compressor, so the trailer must name that dictionary.
     */
    method PushEntry(s: Stored) returns (isNew: bool)
      requires Valid() && NodeRanges(s.text.nodes, |s.text.pool|) && |s.text.pool| < U32 && compressor == NonEmpty(dict)
      modifies this`out, this`docs, this`stored, this`seen, this`collapsed, curStrings
      ensures Valid() && curStrings == old(curStrings) && old(out) <= out && seen == old(seen) + {s.key}
      ensures isNew <==> s.key !in old(seen)
      ensures stored == if isNew then old(stored) + [s] else old(stored)
      ensures isNew ==> RowAt(old(docs), |old(out)|)
      ensures collapsed == old(collapsed) + if isNew then 0 else 1
      ensures bundles == old(bundles) && bundleStartDoc == old(bundleStartDoc) && dict == old(dict) && meta == old(meta)
    {
      if s.key in seen {
        Collapse(s.key);
        return false;
      }
      WriteNew(s);
      return true;
    }

    /** Records the key of a new document, cuts and compresses its text and writes it. */
    method WriteNew(s: Stored)
      requires Valid() && NodeRanges(s.text.nodes, |s.text.pool|) && |s.text.pool| < U32 && compressor == NonEmpty(dict)
      requires s.key !in seen
      modifies this`out, this`docs, this`stored, this`seen, curStrings
      ensures Valid() && stored == old(stored) + [s] && old(out) <= out && RowAt(old(docs), |old(out)|)
      ensures seen == old(seen) + {s.key}
    {
      Remember(s.key);
      var rawEnds := BlockCuts(s.text.nodes, |s.text.pool|);
      var bytes := fmt.ser.putHtml(HtmlOf(s));
      var frames, frameEnds := CompressPoolBlocks(fmt.codecOf(compressor), s.text.pool, rawEnds);
      WriteDocBlocks(s.key, s.checksum, bytes, frames, frameEnds, rawEnds, s);
    }

    /**
     The path for entries serialized and compressed elsewhere, with the trailer's dictionary. An
     entry that was never compressed is refused, but only after its key was recorded.
     */
    method PushSerialized(key: Key, checksum: nat, bytes: Bytes, frames: Bytes, frameEnds: seq<nat>, rawEnds: seq<nat>,
                          ghost s: Stored)
        returns (r: Result<bool, Error>)
      requires Valid() && s.key == key && s.checksum == checksum && bytes == fmt.ser.putHtml(HtmlOf(s))
      requires SplitsNone(rawEnds, s.text.nodes)
      requires |frameEnds| == |rawEnds| ==> FramesFor(Encoder(), s.text.pool, frames, frameEnds, rawEnds)
      modifies this`out, this`docs, this`stored, this`seen, this`collapsed, curStrings
      ensures Valid() && curStrings == old(curStrings) && old(out) <= out && seen == old(seen) + {key}
      ensures r.Err? <==> key !in old(seen) && |frameEnds| != |rawEnds|
      ensures r.Ok? ==> (r.value <==> key !in old(seen))
      ensures stored == if r == Ok(true) then old(stored) + [s] else old(stored)
      ensures collapsed == old(collapsed) + if r == Ok(false) then 1 else 0
      ensures bundles == old(bundles) && bundleStartDoc == old(bundleStartDoc) && dict == old(dict) && meta == old(meta)
    {
      if key in seen {
        Collapse(key);
        return Ok(false);
      }
      Remember(key);
      if |frameEnds| != |rawEnds| {
        return Err(NeverCompressed(key));
      }
      WriteDocBlocks(key, checksum, bytes, frames, frameEnds, rawEnds, s);
      return Ok(true);
    }

    /** Flushes the current bundle's text block; without documents since the last seal, nothing happens. */
    method SealBundle()
      requires Valid()
      modifies this
      ensures Valid() && stored == old(stored) && docs == old(docs) && old(out) <= out && seen == old(seen)
      ensures dict == old(dict) && meta == old(meta) && collapsed == old(collapsed)
      ensures bundleStartDoc == |docs| && (curStrings == old(curStrings) || fresh(curStrings))
      ensures old(bundleStartDoc) == |docs| ==> out == old(out) && bundles == old(bundles)
      ensures Counts(bundles) == old(Counts(bundles)) + if old(bundleStartDoc) < |docs|
              then [|docs| - old(bundleStartDoc)] else []
    {
      var docCount := |docs| - bundleStartDoc;
      if docCount == 0 {
        return;
      }
      Flush(docCount);
    }

    /** Writes a text block over the documents since the last seal. */
    method WriteBlock(docCount: nat, tables: B.Tables)
      requires FileValid() && docCount == |docs| - bundleStartDoc > 0
      requires BlockAt(fmt, tables, TextsOf(stored[bundleStartDoc..]), View().dict)
      modifies this`out, this`bundles, this`blocks, this`bundleStartDoc
      ensures FileValid() && old(out) <= out && bundleStartDoc == |docs|
      ensures Counts(bundles) == old(Counts(bundles)) + [docCount]
    {
      ghost var was, view := out, View();
      var off, len := WriteBlob(fmt.ser.putTables(tables));
      var desc := BundleDesc(bundleStartDoc, docCount, off, len);
      bundles, blocks := bundles + [desc], blocks + [tables];
      bundleStartDoc := |docs|;
      assert out == was + fmt.ser.putTables(tables);
      BlockWritten(fmt, was, view, desc, tables);
    }

    /** Writes the open bundle's text block and starts the next bundle. */
    method Flush(docCount: nat)
      requires Valid() && docCount == |docs| - bundleStartDoc > 0
      modifies this`out, this`curStrings, this`bundles, this`blocks, this`bundleStartDoc
      ensures Valid() && old(out) <= out && bundleStartDoc == |docs| && fresh(curStrings)
      ensures Counts(bundles) == old(Counts(bundles)) + [docCount]
    {
      WriteBlock(docCount, curStrings.Value());
      curStrings := new B.BundleStrings(fmt.codecOf(NonEmpty(dict)));
      assert stored[bundleStartDoc..] == [];
    }

    /** An optional footer region: padding, then the bytes if there are any. */
    method WriteOptional(what: Option<Bytes>) returns (r: T.Region)
      requires T.HEADER_LEN <= |out|
      modifies this`out
      ensures old(out) <= out && |old(out)| <= r.off && End(r) == |out| && OptionalRegion(out, r, what)
    {
      PadToAlign();
      r := T.Region(|out|, 0);
      if what.Some? {
        var off, len := WriteBlob(what.value);
        r := T.Region(off, len);
      }
    }

    /** The three tables, one after the other. */
    method WriteTables(sortIndex: seq<nat>) returns (d: T.Region, b: T.Region, s: T.Region)
      requires T.HEADER_LEN <= |out|
      modifies this`out
      ensures old(out) <= out && |old(out)| <= d.off && End(d) <= b.off && End(b) <= s.off && End(s) == |out|
      ensures RegionIs(out, d.off, d.len, fmt.ser.putDocs(docs))
              && RegionIs(out, b.off, b.len, fmt.ser.putBundles(bundles))
      ensures RegionIs(out, s.off, s.len, fmt.ser.putSort(sortIndex))
    {
      var off, len := WriteBlob(fmt.ser.putDocs(docs));
      d := T.Region(off, len);
      ghost var withDocs := out;
      off, len := WriteBlob(fmt.ser.putBundles(bundles));
      b := T.Region(off, len);
      ghost var withBundles := out;
      off, len := WriteBlob(fmt.ser.putSort(sortIndex));
      s := T.Region(off, len);
      RegionPrefix(withDocs, out, d.off, d.len, fmt.ser.putDocs(docs));
      RegionPrefix(withBundles, out, b.off, b.len, fmt.ser.putBundles(bundles));
    }

    /**
     Seals the tail, then writes dictionary, metadata, doc table, bundle table and sort index, and
     the trailer that says where they are. It fails only on a metadata table whose row count is not
     the number of documents.
     */
    method Finish() returns (r: Result<Bytes, Error>, ghost footer: Footer)
      requires Valid()
      modifies this
      ensures r.Err? <==> old(meta).Some? && M.ColumnRows(old(meta).value.columns) != |old(docs)|
      ensures stored == old(stored) && docs == old(docs) && |blocks| == |bundles|
      ensures Counts(bundles) == old(Counts(bundles)) + if old(bundleStartDoc) < |docs|
              then [|docs| - old(bundleStartDoc)] else []
      ensures r.Ok? ==>
              old(out) <= r.value && FinishedAs(fmt, r.value, View(), footer) && footer.dict == old(dict)
              && footer.meta == old(meta)
    {
      SealBundle();
      r, footer := FinishSealed();
    }

    /** The footer, once every document is in a sealed bundle. */
    method FinishSealed() returns (r: Result<Bytes, Error>, ghost footer: Footer)
      requires Valid() && bundleStartDoc == |docs|
      modifies this`out
      ensures r.Err? <==> meta.Some? && M.ColumnRows(meta.value.columns) != |docs|
      ensures r.Ok? ==>
              old(out) <= r.value && FinishedAs(fmt, r.value, View(), footer) && footer.dict == dict
              && footer.meta == meta
    {
      footer := Footer(EmptyTrailer(), [], None, None);
      var sortIndex := BuildSortIndex(docs);
      SortIndexIs(docs);
      ghost var sealed := out;
      var dictAt := WriteOptional(dict);
      if meta.Some? && M.ColumnRows(meta.value.columns) != |docs| {
        return Err(RowCountMismatch), footer;
      }
      var file;
      file, footer := WriteFooter(sortIndex, dictAt, sealed);
      return Ok(file), footer;
    }

    /** Metadata, tables and trailer, behind the dictionary. */
    method WriteFooter(sortIndex: seq<nat>, dictAt: T.Region, ghost sealed: Bytes)
        returns (file: Bytes, ghost footer: Footer)
      requires ContentsOk(fmt, sealed, View()) && Covered(bundles, |bundles|) == |docs| && SortIndexOk(docs, sortIndex)
      requires sealed <= out && |sealed| <= dictAt.off && End(dictAt) == |out| && OptionalRegion(out, dictAt, dict)
      requires T.HEADER_LEN <= |out| && (meta.Some? ==> M.ColumnRows(meta.value.columns) == |docs|)
      modifies this`out
      ensures old(out) <= file && FinishedAs(fmt, file, View(), footer) && footer.dict == dict && footer.meta == meta
    {
      ghost var withDict := out;
      var metaAt := WriteOptional(PutMeta(fmt, meta));
      ghost var withMeta := out;
      var docAt, bunAt, sortAt := WriteTables(sortIndex);
      var t := T.Trailer(docAt, bunAt, sortAt, dictAt, metaAt, |docs|, |bundles|);
      footer := Footer(t, sortIndex, dict, meta);
      Assembled(fmt, sealed, withDict, withMeta, out, View(), footer);
      file := out + T.ToBytes(t);
    }
  }

  lemma OneMoreText(stored: seq<Stored>, s: Stored, k: nat)
    requires k <= |stored|
    ensures TextsOf((stored + [s])[k..]) == TextsOf(stored[k..]) + [s.text]
  {
    assert (stored + [s])[k..] == stored[k..] + [s];
  }

  /** A document's blob at the end of the file, padded, is a document more. */
  lemma DocWritten(fmt: Format, was: Bytes, bytes: Bytes, pad: Bytes, c: Contents, d: DocEntry, s: Stored)
    requires ContentsOk(fmt, was, c) && |was| % 8 == 0 && T.HEADER_LEN <= |was|
    requires bytes == fmt.ser.putHtml(HtmlOf(s)) && forall i :: 0 <= i < |c.docs| ==> c.docs[i].key != s.key
    requires d == DocEntry(s.key, fmt.graphemes(s.key), s.checksum, |was|, |bytes|)
    ensures ContentsOk(fmt, was + bytes + pad, WithDoc(c, d, s))
  {
    EndsInFile(fmt, was, c);
    assert was + bytes + pad == was + (bytes + pad);
    ContentsKept(fmt, was, bytes + pad, c);
    RegionWritten(was, bytes, pad);
    DocAdded(fmt, was + bytes + pad, c, d, s);
  }

  /** A text block at the end of the file is a bundle more. */
  lemma BlockWritten(fmt: Format, was: Bytes, c: Contents, d: BundleDesc, t: B.Tables)
    requires ContentsOk(fmt, was, c) && |was| % 8 == 0 && T.HEADER_LEN <= |was| && 0 < d.docCount
    requires d.docStart == Covered(c.bundles, |c.bundles|) && d.docStart + d.docCount == |c.docs|
    requires d.off == |was| && d.len == |fmt.ser.putTables(t)|
    requires BlockAt(fmt, t, TextsOf(c.stored[d.docStart..]), c.dict)
    ensures ContentsOk(fmt, was + fmt.ser.putTables(t), WithBundle(c, d, t))
    ensures Covered(WithBundle(c, d, t).bundles, |c.bundles| + 1) == |c.docs|
  {
    var block := fmt.ser.putTables(t);
    EndsInFile(fmt, was, c);
    ContentsKept(fmt, was, block, c);
    RegionWritten(was, block, []);
    assert was + block + [] == was + block;
    BundleAdded(fmt, was + block, c, d, t);
  }

  /** A region the trailer names, deserialized. */
  function ReadRegion<X>(file: Bytes, r: T.Region, get: Bytes -> Option<X>): Option<X> {
    match Slice(file, r.off, r.len) case None => None case Some(bytes) => get(bytes)
  }

  /**
   Opens an archive to append to: the selected trailer's tables seed the writer, whose output
   starts right behind that trailer.
   */
  method OpenForAppend(fmt: Format, file: Bytes, ghost c: Contents, ghost footer: Footer, ghost at: nat)
      returns (w: ArchiveWriter, meta: Option<M.Table>)
    requires Trusted(fmt) && T.ReadFromFile(file) == Ok((footer.trailer, at))
    requires at + T.TRAILER_LEN <= |file| && FinishedAs(fmt, file[..at + T.TRAILER_LEN], c, footer)
    ensures fresh(w) && fresh(w.curStrings) && w.Valid() && w.fmt == fmt && w.View() == c
    ensures file[..at + T.TRAILER_LEN] <= w.out && |w.out| < at + T.TRAILER_LEN + 8
    ensures w.dict == w.compressor == NonEmpty(footer.dict)
    ensures w.seen == (set x | x in c.docs :: x.key) && meta == footer.meta && w.bundleStartDoc == |w.docs|
    ensures w.meta == None
  {
    var (t, off) := T.ReadFromFile(file).value;
    var kept := file[..off + T.TRAILER_LEN];
    assert off == at && kept == file[..at + T.TRAILER_LEN];
    FooterReads(fmt, kept, c, footer);
    var docs := ReadRegion(kept, t.docTable, fmt.ser.getDocs);
    var bundles := ReadRegion(kept, t.bundleTable, fmt.ser.getBundles);
    meta := ReadOptional(kept, t.meta, fmt.ser.getMeta);
    w := new ArchiveWriter.Resume(fmt, kept, docs.value, bundles.value,
        ReadOptional(kept, t.dict, (d: Bytes) => Some(d)), c);
  }

  /** A region whose length 0 means absent. */
  function ReadOptional<X>(file: Bytes, r: T.Region, get: Bytes -> Option<X>): Option<X> {
    if r.len > 0 then ReadRegion(file, r, get) else None
  }

  /** What a finished file's footer says is read back from where its trailer says it is. */
  lemma FooterReads(fmt: Format, file: Bytes, c: Contents, f: Footer)
    requires Faithful(fmt.ser) && FinishedAs(fmt, file, c, f)
    ensures ContentsOk(fmt, file, c) && Covered(c.bundles, |c.bundles|) == |c.docs| && T.HEADER_LEN <= |file|
    ensures ReadRegion(file, f.trailer.docTable, fmt.ser.getDocs) == Some(c.docs)
    ensures ReadRegion(file, f.trailer.bundleTable, fmt.ser.getBundles) == Some(c.bundles)
    ensures ReadRegion(file, f.trailer.sortIndex, fmt.ser.getSort) == Some(f.sort)
    ensures ReadOptional(file, f.trailer.dict, (d: Bytes) => Some(d)) == NonEmpty(f.dict)
    ensures ReadOptional(file, f.trailer.meta, fmt.ser.getMeta) == f.meta
  {
    var t := f.trailer;
    RegionReads(file, t.docTable, fmt.ser.putDocs(c.docs), fmt.ser.getDocs, c.docs);
    RegionReads(file, t.bundleTable, fmt.ser.putBundles(c.bundles), fmt.ser.getBundles, c.bundles);
    RegionReads(file, t.sortIndex, fmt.ser.putSort(f.sort), fmt.ser.getSort, f.sort);
    if f.meta.Some? { RegionReads(file, t.meta, fmt.ser.putMeta(f.meta.value), fmt.ser.getMeta, f.meta.value); }
    if f.dict.Some? { RegionReads(file, t.dict, f.dict.value, (d: Bytes) => Some(d), f.dict.value); }
  }

  lemma RegionReads<X>(file: Bytes, r: T.Region, what: Bytes, get: Bytes -> Option<X>, x: X)
    requires RegionIs(file, r.off, r.len, what) && get(what) == Some(x)
    ensures ReadRegion(file, r, get) == Some(x)
  {
  }

  function PutMeta(fmt: Format, meta: Option<M.Table>): Option<Bytes> {
    match meta case None => None case Some(m) => Some(fmt.ser.putMeta(m))
  }

  // ---- the finished file ----

  /** What the footer says and where. */
  datatype Footer = Footer(trailer: T.Trailer, sort: seq<nat>, dict: Option<Bytes>, meta: Option<M.Table>)

  function EmptyTrailer(): T.Trailer {
    T.Trailer(T.Region(0, 0), T.Region(0, 0), T.Region(0, 0), T.Region(0, 0), T.Region(0, 0), 0, 0)
  }

  function End(r: T.Region): nat { r.off + r.len }

  /** An optional region: absent means empty, wherever it is said to lie. */
  predicate OptionalRegion(file: Bytes, r: T.Region, what: Option<Bytes>) {
    && InFile(file, r.off, r.len)
    && match what case None => r.len == 0 case Some(bytes) => RegionIs(file, r.off, r.len, bytes)
  }

  /** The footer regions come in order, behind all contents and before the trailer. */
  ghost predicate FooterInOrder(file: Bytes, c: Contents, t: T.Trailer) {
    && (forall i :: 0 <= i < |c.docs| ==> DocEnd(c, i) <= t.dict.off)
    && (forall b :: 0 <= b < |c.bundles| ==> BundleEnd(c, b) <= t.dict.off)
    && End(t.dict) <= t.meta.off && End(t.meta) <= t.docTable.off && End(t.docTable) <= t.bundleTable.off
    && End(t.bundleTable) <= t.sortIndex.off && End(t.sortIndex) + T.TRAILER_LEN == |file|
  }

  ghost predicate FinishedAs(fmt: Format, file: Bytes, c: Contents, f: Footer) {
    var t := f.trailer;
    && ContentsOk(fmt, file, c) && Covered(c.bundles, |c.bundles|) == |c.docs| && SortIndexOk(c.docs, f.sort)
    && c.dict == NonEmpty(f.dict)
    && RegionIs(file, t.docTable.off, t.docTable.len, fmt.ser.putDocs(c.docs))
    && RegionIs(file, t.bundleTable.off, t.bundleTable.len, fmt.ser.putBundles(c.bundles))
    && RegionIs(file, t.sortIndex.off, t.sortIndex.len, fmt.ser.putSort(f.sort))
    && OptionalRegion(file, t.dict, f.dict)
    && OptionalRegion(file, t.meta, PutMeta(fmt, f.meta))
    && (f.meta.Some? ==> M.ColumnRows(f.meta.value.columns) == |c.docs|)
    && t.docCount == |c.docs| && t.bundleCount == |c.bundles|
    && FooterInOrder(file, c, t) && file[|file| - T.TRAILER_LEN..] == T.ToBytes(t)
  }

  lemma EightBytes()
    ensures Power256(8) == 0x1_0000_0000_0000_0000
  {
    assert Power256(4) == 256 * Power256(3) && Power256(3) == 256 * Power256(2) && Power256(2) == 256 * Power256(1);
    assert Power256(8) == 256 * Power256(7) && Power256(7) == 256 * Power256(6) && Power256(6) == 256 * Power256(5);
  }

  /** A finished file ends in its trailer, as a reader decodes it. */
  lemma TrailerReads(fmt: Format, file: Bytes, c: Contents, f: Footer)
    requires FinishedAs(fmt, file, c, f)
    requires |file| < 0x1_0000_0000_0000_0000 && |c.docs| < 0x1_0000_0000_0000_0000
             && |c.bundles| < 0x1_0000_0000_0000_0000
    ensures T.ReadAt(file, |file| - T.TRAILER_LEN) == Ok(f.trailer)
  {
    EightBytes();
    var t, off := f.trailer, |file| - T.TRAILER_LEN;
    T.TrailerRoundTrip(t, off);
    assert file[off..off + T.TRAILER_LEN] == file[off..];
  }

  lemma OptionalPrefix(out: Bytes, file: Bytes, r: T.Region, what: Option<Bytes>)
    requires OptionalRegion(out, r, what) && out <= file
    ensures OptionalRegion(file, r, what)
  {
    if what.Some? { RegionPrefix(out, file, r.off, r.len, what.value); }
  }

  /** The five regions, written one behind the other, and the trailer that names them. */
  lemma Assembled(fmt: Format, sealed: Bytes, withDict: Bytes, withMeta: Bytes, out: Bytes, c: Contents, f: Footer)
    requires var t := f.trailer;
             && ContentsOk(fmt, sealed, c) && Covered(c.bundles, |c.bundles|) == |c.docs| && SortIndexOk(c.docs, f.sort)
             && sealed <= withDict && withDict <= withMeta && withMeta <= out
             && OptionalRegion(withDict, t.dict, f.dict) && |sealed| <= t.dict.off && End(t.dict) == |withDict|
             && OptionalRegion(withMeta, t.meta, PutMeta(fmt, f.meta)) && |withDict| <= t.meta.off
                && End(t.meta) == |withMeta|
             && RegionIs(out, t.docTable.off, t.docTable.len, fmt.ser.putDocs(c.docs))
             && RegionIs(out, t.bundleTable.off, t.bundleTable.len, fmt.ser.putBundles(c.bundles))
             && RegionIs(out, t.sortIndex.off, t.sortIndex.len, fmt.ser.putSort(f.sort))
             && |withMeta| <= t.docTable.off && End(t.docTable) <= t.bundleTable.off
                && End(t.bundleTable) <= t.sortIndex.off
             && c.dict == NonEmpty(f.dict) && End(t.sortIndex) == |out| && t.docCount == |c.docs|
                && t.bundleCount == |c.bundles|
    requires f.meta.Some? ==> M.ColumnRows(f.meta.value.columns) == |c.docs|
    ensures FinishedAs(fmt, out + T.ToBytes(f.trailer), c, f)
  {
    var t, file := f.trailer, out + T.ToBytes(f.trailer);
    assert out <= file;
    PrefixKept(fmt, sealed, file, c);
    EndsInFile(fmt, sealed, c);
    OptionalPrefix(withDict, file, t.dict, f.dict);
    OptionalPrefix(withMeta, file, t.meta, PutMeta(fmt, f.meta));
    RegionPrefix(out, file, t.docTable.off, t.docTable.len, fmt.ser.putDocs(c.docs));
    RegionPrefix(out, file, t.bundleTable.off, t.bundleTable.len, fmt.ser.putBundles(c.bundles));
    RegionPrefix(out, file, t.sortIndex.off, t.sortIndex.len, fmt.ser.putSort(f.sort));
  }

  lemma RegionWrittenHere(out: Bytes, bytes: Bytes)
    requires |out| % 8 == 0
    ensures out <= out + bytes && (T.HEADER_LEN <= |out| ==> RegionIs(out + bytes, |out|, |bytes|, bytes))
  {
    if T.HEADER_LEN <= |out| {
      RegionWritten(out, bytes, []);
      assert out + bytes + [] == out + bytes;
    }
  }

  lemma RegionPrefix(out: Bytes, file: Bytes, off: nat, len: nat, what: Bytes)
    requires RegionIs(out, off, len, what) && out <= file
    ensures RegionIs(file, off, len, what)
  {
    assert file == out + file[|out|..];
    RegionKept(out, file[|out|..], off, len, what);
  }

  lemma PrefixKept(fmt: Format, out: Bytes, file: Bytes, c: Contents)
    requires ContentsOk(fmt, out, c) && out <= file
    ensures ContentsOk(fmt, file, c)
  {
    assert file == out + file[|out|..];
    ContentsKept(fmt, out, file[|out|..], c);
  }

  function Zeros(n: nat): (z: Bytes)
    ensures |z| == n && forall k :: 0 <= k < n ==> z[k] == 0
  {
    seq(n, _ => 0)
  }
}
