/**
 The memory-mapped reader: `Open` checks the footer once, text blocks are checked when first
 read, and a document is reached by its position or its key.
 */
module Reader {
  import opened Wrappers
  import opened LittleEndian
  import opened DocTable
  import opened Layout
  import opened Writer
  import B = BundleStrings
  import M = Meta
  import T = Trailer

  datatype Error =
    | BadFile(why: T.Error) | BadDocTable | BadSortIndex | BadBundleTable | SortIndexLength | SortIndexRange
    | BundlesNotContiguous | BundlesShort | BadDictionary | BadMeta | BlockOverflow | BlockOutside | BlockMalformed
    | BlobOverflow | BlobOutside | BlobMalformed

  /** rkyv refuses a region that is out of bounds, misaligned or malformed. */
  function Access<X>(file: Bytes, r: T.Region, get: Bytes -> Option<X>): Option<X> {
    if r.off % 8 != 0 then None else ReadRegion(file, r, get)
  }

  predicate Tiled(bundles: seq<BundleDesc>, n: nat) {
    (forall b :: 0 <= b < |bundles| ==> StartsRight(bundles, b)) && Covered(bundles, |bundles|) == n
  }

  predicate StartsRight(bundles: seq<BundleDesc>, b: nat)
    requires b < |bundles|
  {
    bundles[b].docStart == Covered(bundles, b)
  }

  /** Everything the reader keeps after the footer has passed its checks. */
  datatype Opened = Opened(trailer: T.Trailer, docs: seq<DocEntry>, sort: seq<nat>, bundles: seq<BundleDesc>,
    dict: Option<Bytes>, meta: Option<M.Table>)

  /** The checks of `Open`, stated outright. */
  ghost predicate Opens(fmt: Format, file: Bytes, o: Opened) {
    && T.ReadFromTail(file) == Ok(o.trailer)
    && Access(file, o.trailer.docTable, fmt.ser.getDocs) == Some(o.docs)
    && Access(file, o.trailer.sortIndex, fmt.ser.getSort) == Some(o.sort)
    && |o.sort| == |o.docs| && (forall k :: 0 <= k < |o.sort| ==> o.sort[k] < |o.docs|)
    && Access(file, o.trailer.bundleTable, fmt.ser.getBundles) == Some(o.bundles) && Tiled(o.bundles, |o.docs|)
    && (if o.trailer.dict.len > 0 then o.dict.Some? && Slice(file, o.trailer.dict.off, o.trailer.dict.len) == o.dict
       else o.dict == None)
    && (if o.trailer.meta.len > 0 then o.meta.Some? && Access(file, o.trailer.meta, fmt.ser.getMeta) == o.meta
       && M.TableSound(o.meta.value, |o.docs|)
        else o.meta == None)
  }

  method CheckSortIndex(sort: seq<nat>, n: nat) returns (ok: bool)
    ensures ok <==> forall k :: 0 <= k < |sort| ==> sort[k] < n
  {
    for k := 0 to |sort|
      invariant forall j :: 0 <= j < k ==> sort[j] < n
    {
      if sort[k] >= n {
        return false;
      }
    }
    return true;
  }

  /** Bundles must cover the doc table one after the other, from 0 to its end. */
  method CheckBundles(bundles: seq<BundleDesc>, n: nat) returns (failure: Option<Error>)
    ensures failure == None <==> Tiled(bundles, n)
  {
    var expected := 0;
    for b := 0 to |bundles|
      invariant expected == Covered(bundles, b)
      invariant forall j :: 0 <= j < b ==> StartsRight(bundles, j)
    {
      if bundles[b].docStart != expected {
        assert !StartsRight(bundles, b);
        return Some(BundlesNotContiguous);
      }
      expected := expected + bundles[b].docCount;
    }
    return if expected != n then Some(BundlesShort) else None;
  }

  /** Opens a file exactly when its footer passes every check. */
  method Open(fmt: Format, file: Bytes) returns (r: Result<Opened, Error>)
    ensures r.Ok? ==> Opens(fmt, file, r.value)
    ensures r.Err? ==> forall o :: !Opens(fmt, file, o)
  {
    var selected := T.ReadFromTail(file);
    if selected.Err? {
      return Err(BadFile(selected.error));
    }
    var t := selected.value;
    var docs := Access(file, t.docTable, fmt.ser.getDocs);
    if docs.None? {
      return Err(BadDocTable);
    }
    var sort := Access(file, t.sortIndex, fmt.ser.getSort);
    if sort.None? {
      return Err(BadSortIndex);
    }
    if |sort.value| != |docs.value| {
      return Err(SortIndexLength);
    }
    var inRange := CheckSortIndex(sort.value, |docs.value|);
    if !inRange {
      return Err(SortIndexRange);
    }
    var bundles := Access(file, t.bundleTable, fmt.ser.getBundles);
    if bundles.None? {
      return Err(BadBundleTable);
    }
    var failure := CheckBundles(bundles.value, |docs.value|);
    if failure.Some? {
      return Err(failure.value);
    }
    var dict := None;
    if t.dict.len > 0 {
      dict := Slice(file, t.dict.off, t.dict.len);
      if dict.None? {
        return Err(BadDictionary);
      }
    }
    var meta := None;
    if t.meta.len > 0 {
      meta := Access(file, t.meta, fmt.ser.getMeta);
      if meta.None? {
        return Err(BadMeta);
      }
      var unsound := M.ValidateArchived(meta.value, |docs.value|);
      if unsound.Some? {
        return Err(BadMeta);
      }
    }
    return Ok(Opened(t, docs.value, sort.value, bundles.value, dict, meta));
  }

  /** The region lies aligned in the file, and what it holds deserializes to `x`. */
  ghost predicate Deserialized<X>(file: Bytes, r: T.Region, get: Bytes -> Option<X>, x: X) {
    r.off % 8 == 0 && r.off + r.len <= |file| && get(file[r.off..r.off + r.len]) == Some(x)
  }

  /**
   What a file that opens is good for: its tables lie in the file, the sort index and the metadata go with
   the doc table, and the bundles, one after the other, take in every position and no more.
   */
  lemma OpenedIsSound(fmt: Format, file: Bytes, o: Opened)
    requires Opens(fmt, file, o)
    ensures |file| >= 16 && file[..10] == [72, 84, 77, 76, 65, 82, 67, 49, 12, 0]
    ensures Deserialized(file, o.trailer.docTable, fmt.ser.getDocs, o.docs)
            && Deserialized(file, o.trailer.sortIndex, fmt.ser.getSort, o.sort)
            && Deserialized(file, o.trailer.bundleTable, fmt.ser.getBundles, o.bundles)
    ensures |o.sort| == |o.docs| && forall k :: 0 <= k < |o.sort| ==> o.sort[k] < |o.docs|
    ensures o.bundles == [] ==> o.docs == []
    ensures o.bundles != [] ==>
              var last := o.bundles[|o.bundles| - 1];
              o.bundles[0].docStart == 0 && last.docStart + last.docCount == |o.docs|
    ensures forall b :: 0 < b < |o.bundles| ==>
              o.bundles[b].docStart == o.bundles[b - 1].docStart + o.bundles[b - 1].docCount
    ensures o.dict.Some? <==> o.trailer.dict.len > 0
    ensures o.dict.Some? ==>
            o.trailer.dict.off + o.trailer.dict.len <= |file|
            && o.dict.value == file[o.trailer.dict.off..o.trailer.dict.off + o.trailer.dict.len]
    ensures o.meta.Some? <==> o.trailer.meta.len > 0
    ensures o.meta.Some? ==>
            Deserialized(file, o.trailer.meta, fmt.ser.getMeta, o.meta.value) && M.TableSound(o.meta.value, |o.docs|)
  {
    assert o.bundles != [] ==> StartsRight(o.bundles, 0) && StartsRight(o.bundles, |o.bundles| - 1);
    forall b | 0 < b < |o.bundles|
        ensures o.bundles[b].docStart == o.bundles[b - 1].docStart + o.bundles[b - 1].docCount {
      assert StartsRight(o.bundles, b) && StartsRight(o.bundles, b - 1);
    }
  }

  /** The opened form of a finished file. */
  function OpenedAs(c: Contents, f: Footer): Opened {
    Opened(f.trailer, c.docs, f.sort, c.bundles, NonEmpty(f.dict), f.meta)
  }

  /**
   A file whose selected trailer was written by `Finish` passes every check, whatever bytes an
   interrupted append has left behind that trailer.
   */
  lemma FinishedOpens(fmt: Format, file: Bytes, at: nat, c: Contents, f: Footer)
    requires Trusted(fmt) && at + T.TRAILER_LEN <= |file| && FinishedAs(fmt, file[..at + T.TRAILER_LEN], c, f)
    requires T.ReadFromTail(file) == Ok(f.trailer) && (f.meta.Some? ==> M.TableSound(f.meta.value, |c.docs|))
    ensures Opens(fmt, file, OpenedAs(c, f)) && ContentsOk(fmt, file, c) && Covered(c.bundles, |c.bundles|) == |c.docs|
  {
    var kept := file[..at + T.TRAILER_LEN];
    FooterReads(fmt, kept, c, f);
    PrefixKept(fmt, kept, file, c);
    FinishedRegions(fmt, kept, file, c, f);
    forall b | 0 <= b < |c.bundles| ensures StartsRight(c.bundles, b) { assert BundleAt(fmt, file, c, b); }
  }

  lemma FinishedRegions(fmt: Format, kept: Bytes, file: Bytes, c: Contents, f: Footer)
    requires Trusted(fmt) && FinishedAs(fmt, kept, c, f) && kept <= file
    ensures Access(file, f.trailer.docTable, fmt.ser.getDocs) == Some(c.docs)
    ensures Access(file, f.trailer.bundleTable, fmt.ser.getBundles) == Some(c.bundles)
    ensures Access(file, f.trailer.sortIndex, fmt.ser.getSort) == Some(f.sort)
    ensures if f.trailer.dict.len > 0 then NonEmpty(f.dict).Some?
            && Slice(file, f.trailer.dict.off, f.trailer.dict.len) == NonEmpty(f.dict) else NonEmpty(f.dict) == None
    ensures if f.trailer.meta.len > 0 then f.meta.Some? && Access(file, f.trailer.meta, fmt.ser.getMeta) == f.meta
            else f.meta == None
  {
    var t := f.trailer;
    RegionPrefix(kept, file, t.docTable.off, t.docTable.len, fmt.ser.putDocs(c.docs));
    RegionPrefix(kept, file, t.bundleTable.off, t.bundleTable.len, fmt.ser.putBundles(c.bundles));
    RegionPrefix(kept, file, t.sortIndex.off, t.sortIndex.len, fmt.ser.putSort(f.sort));
    OptionalPrefix(kept, file, t.dict, f.dict);
    OptionalPrefix(kept, file, t.meta, PutMeta(fmt, f.meta));
  }

  // ---- text blocks ----

  /** A region whose end overflows 64 bits, lies outside the file, or is misaligned or malformed is refused. */
  function CheckRegion<X>(file: Bytes, r: T.Region, get: Bytes -> Option<X>, overflow: Error, outside: Error,
      malformed: Error)
      : (x: Result<X, Error>)
    ensures x.Ok? <==>
            && r.off % 8 == 0 && r.off + r.len <= |file| && r.off + r.len < 0x1_0000_0000_0000_0000
            && get(file[r.off..r.off + r.len]).Some?
    ensures x.Ok? ==> Some(x.value) == get(file[r.off..r.off + r.len])
  {
    if r.off + r.len >= 0x1_0000_0000_0000_0000 then Err(overflow)
    else if r.off + r.len > |file| then Err(outside)
    else match Access(file, r, get) case None => Err(malformed) case Some(x) => Ok(x)
  }

  /** The checks a bundle's text block has to pass. */
  function CheckBlock(fmt: Format, file: Bytes, d: BundleDesc): Result<B.Tables, Error> {
    match CheckRegion(file, T.Region(d.off, d.len), fmt.ser.getTables, BlockOverflow, BlockOutside, BlockMalformed)
    case Err(e) => Err(e)
    case Ok(t) => if B.WellTabled(t) && |t.docs| - 1 == d.docCount then Ok(t) else Err(BlockMalformed)
  }

  /** The checks a document's blob has to pass. */
  function CheckBlob(fmt: Format, file: Bytes, d: DocEntry): Result<Html, Error> {
    CheckRegion(file, T.Region(d.off, d.len), fmt.ser.getHtml, BlobOverflow, BlobOutside, BlobMalformed)
  }

  class MmapArchive {
    const fmt: Format
    const file: Bytes
    const footer: Opened
    /** Bundles whose block has passed its checks once; the mapping never changes. */
    var validated: seq<bool>

    ghost predicate Valid()
      reads this
    {
      && Opens(fmt, file, footer) && |validated| == |footer.bundles|
      && forall b :: 0 <= b < |validated| && validated[b] ==> CheckBlock(fmt, file, footer.bundles[b]).Ok?
    }

    constructor (f: Format, bytes: Bytes, o: Opened)
      requires Opens(f, bytes, o)
      ensures Valid() && fmt == f && file == bytes && footer == o
    {
      fmt, file, footer, validated := f, bytes, o, seq(|o.bundles|, _ => false);
    }

    /** The block of bundle `b`: checked in full the first time, read unchecked from then on. */
    method BundleStrings(b: nat) returns (r: Result<B.Tables, Error>)
      requires Valid() && b < |footer.bundles|
      modifies this`validated
      ensures Valid() && r == CheckBlock(fmt, file, footer.bundles[b])
      ensures forall k :: 0 <= k < |validated| && k != b ==> validated[k] == old(validated[k])
      ensures validated[b] <==> r.Ok?
    {
      var d := footer.bundles[b];
      if validated[b] {
        return Ok(fmt.ser.getTables(file[d.off..d.off + d.len]).value);
      }
      r := CheckBlock(fmt, file, d);
      if r.Ok? {
        validated := validated[b := true];
      }
    }

    /** The bundle that owns position `i`: the last one that starts no later. */
    method BundleOf(i: nat) returns (b: nat)
      requires Valid() && i < |footer.docs|
      ensures b < |footer.bundles| && footer.bundles[b].docStart <= i < footer.bundles[b].docStart +
              footer.bundles[b].docCount
    {
      var bundles := footer.bundles;
      var lo, hi := 0, |bundles|;
      while lo < hi
        invariant 0 <= lo <= hi <= |bundles|
        invariant forall k :: 0 <= k < lo ==> bundles[k].docStart <= i
        invariant forall k :: hi <= k < |bundles| ==> i < bundles[k].docStart
      {
        var mid := (lo + hi) / 2;
        if bundles[mid].docStart <= i {
          forall k | 0 <= k <= mid ensures bundles[k].docStart <= i { StartsGrow(bundles, |footer.docs|, k, mid); }
          lo := mid + 1;
        } else {
          forall k | mid <= k < |bundles| ensures i < bundles[k].docStart {
            StartsGrow(bundles, |footer.docs|, mid, k);
          }
          hi := mid;
        }
      }
      LastStart(bundles, |footer.docs|, i, lo);
      b := lo - 1;
    }

    /** The document at position `i`: its entry, and the slot of its text in its bundle's block. */
    method TryDoc(i: nat) returns (r: Result<(Html, B.Tables, nat), Error>, ghost b: nat)
      requires Valid() && i < |footer.docs|
      modifies this`validated
      ensures Valid() && b < |footer.bundles|
      ensures footer.bundles[b].docStart <= i < footer.bundles[b].docStart + footer.bundles[b].docCount
      ensures r == match CheckBlob(fmt, file, footer.docs[i])
                   case Err(e) => Err(e)
                   case Ok(html) =>
                     match CheckBlock(fmt, file, footer.bundles[b])
                     case Err(e) => Err(e)
                     case Ok(t) => Ok((html, t, i - footer.bundles[b].docStart))
    {
      var bundle := BundleOf(i);
      b := bundle;
      var blob := CheckBlob(fmt, file, footer.docs[i]);
      if blob.Err? {
        return Err(blob.error), b;
      }
      var strings := BundleStrings(bundle);
      if strings.Err? {
        return Err(strings.error), b;
      }
      return Ok((blob.value, strings.value, i - footer.bundles[bundle].docStart)), b;
    }
  }

  lemma StartsGrow(bundles: seq<BundleDesc>, n: nat, j: nat, k: nat)
    requires Tiled(bundles, n) && j <= k < |bundles|
    ensures bundles[j].docStart <= bundles[k].docStart
  {
    assert StartsRight(bundles, j) && StartsRight(bundles, k);
    CoveredGrows(bundles, j, k);
  }

  lemma LastStart(bundles: seq<BundleDesc>, n: nat, i: nat, lo: nat)
    requires Tiled(bundles, n) && i < n && lo <= |bundles|
    requires (forall k :: 0 <= k < lo ==> bundles[k].docStart <= i) && forall k :: lo <= k < |bundles| ==>
             i < bundles[k].docStart
    ensures 0 < lo && bundles[lo - 1].docStart <= i < bundles[lo - 1].docStart + bundles[lo - 1].docCount
  {
    assert bundles != [] ==> StartsRight(bundles, 0);
    assert lo < |bundles| ==> StartsRight(bundles, lo);
    assert lo > 0 ==> StartsRight(bundles, lo - 1);
  }

  predicate Owns(c: Contents, b: nat, i: nat)
    requires b < |c.bundles|
  {
    c.bundles[b].docStart <= i < c.bundles[b].docStart + c.bundles[b].docCount
  }

  /** An entry says of a document all there is but its text pool. */
  predicate Tells(html: Html, s: Stored) {
    html.key == s.key && html.checksum == s.checksum && html.nodes == s.text.nodes && html.body == s.body
  }

  /**
   Position `i` of a finished archive reads back the `i`-th stored document, its entry and, with the
   dictionary the archive names, its text; unless its bundle has outgrown its 32-bit tables.
   */
  method ReadDocument(a: MmapArchive, i: nat, ghost c: Contents, ghost f: Footer)
      returns (r: Result<(Html, Option<Bytes>), Error>)
    requires a.Valid() && Trusted(a.fmt) && |a.file| < 0x1_0000_0000_0000_0000
    requires a.footer == OpenedAs(c, f) && c.dict == NonEmpty(f.dict) && ContentsOk(a.fmt, a.file, c) && i < |c.docs|
    modifies a`validated
    ensures a.Valid()
    ensures forall b :: 0 <= b < |c.bundles| && Owns(c, b, i) && BundleFits(c, b) ==>
              r.Ok? && Tells(r.value.0, c.stored[i]) && r.value.1 == Some(c.stored[i].text.pool)
  {
    var found, b := a.TryDoc(i);
    OnlyOwner(a.fmt, a.file, c, b, i);
    if BundleFits(c, b) {
      DocumentReads(a.fmt, a.file, c, i, b);
    }
    if found.Err? {
      return Err(found.error);
    }
    var (html, t, slot) := found.value;
    var pool := B.MaterializeDoc(a.fmt.codecOf(a.footer.dict), t, slot);
    return Ok((html, pool));
  }

  lemma OnlyOwner(fmt: Format, file: Bytes, c: Contents, b: nat, i: nat)
    requires ContentsOk(fmt, file, c) && b < |c.bundles| && Owns(c, b, i)
    ensures forall k :: 0 <= k < |c.bundles| && Owns(c, k, i) ==> k == b
  {
    forall k | 0 <= k < |c.bundles| && Owns(c, k, i) ensures k == b {
      OneOwner(fmt, file, c, k, b, i);
    }
  }

  lemma OneOwner(fmt: Format, file: Bytes, c: Contents, k: nat, b: nat, i: nat)
    requires ContentsOk(fmt, file, c) && k < |c.bundles| && b < |c.bundles| && Owns(c, k, i) && Owns(c, b, i)
    ensures k == b
  {
    assert BundleAt(fmt, file, c, k) && BundleAt(fmt, file, c, b);
    if k < b { CoveredGrows(c.bundles, k + 1, b); }
    if b < k { CoveredGrows(c.bundles, b + 1, k); }
  }

  /** A stored document's blob passes its checks and is the document's entry. */
  lemma BlobReads(fmt: Format, file: Bytes, c: Contents, i: nat)
    requires Trusted(fmt) && ContentsOk(fmt, file, c) && i < |c.docs| && |file| < 0x1_0000_0000_0000_0000
    ensures CheckBlob(fmt, file, c.docs[i]) == Ok(HtmlOf(c.stored[i]))
  {
    assert DocAt(fmt, file, c.docs[i], c.stored[i]);
  }

  /** The block of a bundle that fits passes its checks and holds the texts of the bundle's documents. */
  lemma BlockReads(fmt: Format, file: Bytes, c: Contents, b: nat)
    requires Trusted(fmt) && ContentsOk(fmt, file, c) && b < |c.bundles| && |file| < 0x1_0000_0000_0000_0000
             && BundleFits(c, b)
    ensures CheckBlock(fmt, file, c.bundles[b]) == Ok(c.blocks[b])
    ensures B.Holds(fmt.codecOf(c.dict), c.blocks[b], TextsIn(c, c.bundles[b]))
  {
    assert BundleAt(fmt, file, c, b);
  }

  lemma DocumentReads(fmt: Format, file: Bytes, c: Contents, i: nat, b: nat)
    requires Trusted(fmt) && ContentsOk(fmt, file, c) && i < |c.docs| && b < |c.bundles|
             && |file| < 0x1_0000_0000_0000_0000
    requires Owns(c, b, i) && BundleFits(c, b)
    ensures CheckBlob(fmt, file, c.docs[i]) == Ok(HtmlOf(c.stored[i])) && Tells(HtmlOf(c.stored[i]), c.stored[i])
            && CheckBlock(fmt, file, c.bundles[b]) == Ok(c.blocks[b])
    ensures i - c.bundles[b].docStart + 1 < |c.blocks[b].docs|
    ensures B.SlotPool(fmt.codecOf(c.dict), c.blocks[b], i - c.bundles[b].docStart) == Some(c.stored[i].text.pool)
  {
    BlobReads(fmt, file, c, i);
    BlockReads(fmt, file, c, b);
    B.SlotReads(fmt.codecOf(c.dict), c.blocks[b], TextsIn(c, c.bundles[b]), i - c.bundles[b].docStart);
  }
}
