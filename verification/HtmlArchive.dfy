/**
 The in-memory archive: documents grouped into bundles, found by position or by key, loaded from a
 file and saved again bundle by bundle.
 */
module HtmlArchive {
  import opened Wrappers
  import opened LittleEndian
  import opened TextBlocks
  import opened DocTable
  import opened FirstWins
  import opened Layout
  import opened Lists
  import opened Sorting
  import opened Writer
  import A = Appender
  import B = BundleStrings
  import M = Meta
  import R = Reader
  import T = Trailer

  // ---- grouping ----

  /** Every group but the last is full, and none is empty. */
  ghost predicate Chunked<X>(groups: seq<seq<X>>, cap: nat) {
    forall b :: 0 <= b < |groups| ==> 0 < |groups[b]| <= cap && (b + 1 < |groups| ==> |groups[b]| == cap)
  }

  method FromVec(entries: seq<Stored>) returns (bundles: seq<seq<Stored>>)
    ensures Flatten(bundles) == entries && Chunked(bundles, A.BUNDLE_CAP)
  {
    bundles := [];
    var at := 0;
    while at < |entries|
      invariant at <= |entries| && Flatten(bundles) == entries[..at] && Chunked(bundles, A.BUNDLE_CAP)
      invariant at < |entries| ==> forall b :: 0 <= b < |bundles| ==> |bundles[b]| == A.BUNDLE_CAP
    {
      var n := if |entries| - at < A.BUNDLE_CAP then |entries| - at else A.BUNDLE_CAP;
      FlattenOne(bundles, entries[at..at + n]);
      bundles := bundles + [entries[at..at + n]];
      assert entries[..at] + entries[at..at + n] == entries[..at + n];
      at := at + n;
    }
    assert entries[..at] == entries;
  }

  // ---- the two indexes ----

  datatype Place = Place(bundle: nat, slot: nat)

  predicate IsPlace(bundles: seq<seq<Stored>>, p: Place) {
    p.bundle < |bundles| && p.slot < |bundles[p.bundle]|
  }

  function KeyAt(bundles: seq<seq<Stored>>, p: Place): Key {
    if IsPlace(bundles, p) then bundles[p.bundle][p.slot].key else []
  }

  /** Places ordered by the length of their keys, then by the keys. */
  function PlaceOrder(bundles: seq<seq<Stored>>, graphemes: Key -> nat): (leq: (Place, Place) -> bool)
    ensures forall p, q :: leq(p, q) == (CompareKeys(graphemes, KeyAt(bundles, p), KeyAt(bundles, q)) != Greater)
  {
    (p: Place, q: Place) => CompareKeys(graphemes, KeyAt(bundles, p), KeyAt(bundles, q)) != Greater
  }

  function CompareKeys(graphemes: Key -> nat, a: Key, b: Key): Ordering {
    Compare(graphemes(a), a, graphemes(b), b)
  }

  lemma PlaceOrderIsTotal(bundles: seq<seq<Stored>>, graphemes: Key -> nat)
    ensures Total(PlaceOrder(bundles, graphemes))
  {
    var leq := PlaceOrder(bundles, graphemes);
    forall p, q ensures leq(p, q) || leq(q, p) {
      KeyTotal(KeyAt(bundles, p), KeyAt(bundles, q));
    }
    forall p, q, r | leq(p, q) && leq(q, r) ensures leq(p, r) {
      KeysTransitive(graphemes, KeyAt(bundles, p), KeyAt(bundles, q), KeyAt(bundles, r));
    }
  }

  lemma KeysTransitive(graphemes: Key -> nat, a: Key, b: Key, c: Key)
    requires CompareKeys(graphemes, a, b) != Greater && CompareKeys(graphemes, b, c) != Greater
    ensures CompareKeys(graphemes, a, c) != Greater
    ensures CompareKeys(graphemes, a, b) == Less || CompareKeys(graphemes, b, c) == Less ==>
            CompareKeys(graphemes, a, c) == Less
  {
    var x, y, z := DocEntry(a, graphemes(a), 0, 0, 0), DocEntry(b, graphemes(b), 0, 0, 0),
        DocEntry(c, graphemes(c), 0, 0, 0);
    CompareTransitive(x, y, z);
    if a == c {
      KeyTotal(a, b);
    }
  }

  /** Where each bundle starts, and the total at the end. */
  ghost predicate StartsOk(bundles: seq<seq<Stored>>, starts: seq<nat>) {
    |starts| == |bundles| + 1 && forall b :: 0 <= b < |starts| ==> starts[b] == StartOf(bundles, b)
  }

  /** Every place once, in the order of the keys. */
  ghost predicate SortedOk(bundles: seq<seq<Stored>>, graphemes: Key -> nat, sorted: seq<Place>) {
    && (forall p :: p in sorted <==> IsPlace(bundles, p))
    && (forall i, j :: 0 <= i < j < |sorted| ==> sorted[i] != sorted[j])
    && Sorted(PlaceOrder(bundles, graphemes), sorted)
  }

  method IndexBundles(bundles: seq<seq<Stored>>, graphemes: Key -> nat) returns (sorted: seq<Place>, starts: seq<nat>)
    ensures StartsOk(bundles, starts) && SortedOk(bundles, graphemes, sorted)
  {
    starts := [0];
    for b := 0 to |bundles|
      invariant |starts| == b + 1 && forall j :: 0 <= j <= b ==> starts[j] == StartOf(bundles, j)
    {
      StartNext(bundles, b);
      starts := starts + [starts[b] + |bundles[b]|];
    }
    var all := AllPlaces(bundles);
    sorted := Sort(PlaceOrder(bundles, graphemes), all);
    PlaceOrderIsTotal(bundles, graphemes);
    SortIs(PlaceOrder(bundles, graphemes), all);
    NoRepeats(sorted, all);
    forall p ensures p in sorted <==> IsPlace(bundles, p) {
      InBoth(sorted, all, p);
    }
  }

  predicate PlaceBefore(p: Place, b: nat, slot: nat) {
    p.bundle < b || (p.bundle == b && p.slot < slot)
  }

  method AllPlaces(bundles: seq<seq<Stored>>) returns (all: seq<Place>)
    ensures forall p :: p in all <==> IsPlace(bundles, p)
    ensures forall i, j :: 0 <= i < j < |all| ==> all[i] != all[j]
  {
    all := [];
    for b := 0 to |bundles|
      invariant forall p :: p in all <==> IsPlace(bundles, p) && PlaceBefore(p, b, 0)
      invariant forall i, j :: 0 <= i < j < |all| ==> all[i] != all[j]
    {
      for slot := 0 to |bundles[b]|
        invariant forall p :: p in all <==> IsPlace(bundles, p) && PlaceBefore(p, b, slot)
        invariant forall i, j :: 0 <= i < j < |all| ==> all[i] != all[j]
      {
        assert Place(b, slot) !in all;
        all := all + [Place(b, slot)];
      }
    }
  }

  /** The place of flat position `i`: the last bundle that starts no later. */
  method LocateFlat(bundles: seq<seq<Stored>>, starts: seq<nat>, i: nat) returns (p: Place)
    requires StartsOk(bundles, starts) && i < |Flatten(bundles)|
    ensures IsPlace(bundles, p) && starts[p.bundle] + p.slot == i && bundles[p.bundle][p.slot] == Flatten(bundles)[i]
  {
    forall b | 0 < b < |starts| ensures starts[b - 1] <= starts[b] {
      StartNext(bundles, b - 1);
    }
    var k := B.PartitionPoint(starts, i);
    assert starts[0] == 0 && bundles[..|bundles|] == bundles;
    p := Place(k - 1, i - starts[k - 1]);
    StartNext(bundles, p.bundle);
    FlattenAt(bundles, p.bundle);
    assert Flatten(bundles)[starts[p.bundle]..starts[p.bundle] + |bundles[p.bundle]|][p.slot] == Flatten(bundles)[i];
  }

  /** Binary search by key: a place that has it, or no place has it. */
  method Locate(bundles: seq<seq<Stored>>, graphemes: Key -> nat, sorted: seq<Place>, key: Key)
      returns (found: Option<Place>)
    requires SortedOk(bundles, graphemes, sorted)
    ensures found.Some? ==> IsPlace(bundles, found.value) && bundles[found.value.bundle][found.value.slot].key == key
    ensures found.None? ==> forall p :: IsPlace(bundles, p) ==> bundles[p.bundle][p.slot].key != key
  {
    var lo, hi := 0, |sorted|;
    while lo < hi
      invariant 0 <= lo <= hi <= |sorted|
      invariant forall k :: 0 <= k < |sorted| && !(lo <= k < hi) ==> KeyAt(bundles, sorted[k]) != key
    {
      var mid := (lo + hi) / 2;
      assert sorted[mid] in sorted;
      var e := bundles[sorted[mid].bundle][sorted[mid].slot];
      match Compare(graphemes(e.key), e.key, graphemes(key), key) {
        case Equal => return Some(sorted[mid]);
        case Less =>
          forall k | 0 <= k <= mid ensures KeyAt(bundles, sorted[k]) != key {
            Unlike(bundles, graphemes, sorted, k, mid, key);
          }
          lo := mid + 1;
        case Greater =>
          forall k | mid <= k < |sorted| ensures KeyAt(bundles, sorted[k]) != key {
            Unlike(bundles, graphemes, sorted, mid, k, key);
          }
          hi := mid;
      }
    }
    forall p | IsPlace(bundles, p) ensures bundles[p.bundle][p.slot].key != key {
      assert p in sorted && KeyAt(bundles, p) == bundles[p.bundle][p.slot].key;
    }
    return None;
  }

  /** Below a smaller key, and above a greater one, the key is not to be found. */
  lemma Unlike(bundles: seq<seq<Stored>>, graphemes: Key -> nat, sorted: seq<Place>, j: nat, k: nat, key: Key)
    requires Sorted(PlaceOrder(bundles, graphemes), sorted) && j <= k < |sorted|
    ensures CompareKeys(graphemes, KeyAt(bundles, sorted[k]), key) == Less ==> KeyAt(bundles, sorted[j]) != key
    ensures CompareKeys(graphemes, KeyAt(bundles, sorted[j]), key) == Greater ==> KeyAt(bundles, sorted[k]) != key
  {
    var a, b := KeyAt(bundles, sorted[j]), KeyAt(bundles, sorted[k]);
    if j < k {
      assert PlaceOrder(bundles, graphemes)(sorted[j], sorted[k]);
    }
    KeyTotal(a, b);
  }

  // ---- saving ----

  function DocKey(s: Stored): Key { s.key }

  ghost predicate Savable(s: Stored) {
    NodeRanges(s.text.nodes, |s.text.pool|) && |s.text.pool| < U32
  }

  /** The writer has stored, of `all`, the first document of each key. */
  ghost predicate Saved(w: ArchiveWriter, all: seq<Stored>)
    reads w, w.curStrings
  {
    && w.Valid() && w.stored == Fresh(all, DocKey, {}) && w.seen == Keys(all, DocKey)
    && w.compressor == NonEmpty(w.dict)
  }

  method PushAll(w: ArchiveWriter, bundle: seq<Stored>, ghost all: seq<Stored>)
    requires Saved(w, all) && forall i :: 0 <= i < |bundle| ==> Savable(bundle[i])
    modifies w, w.curStrings
    ensures Saved(w, all + bundle) && w.curStrings == old(w.curStrings)
    ensures w.bundles == old(w.bundles) && w.bundleStartDoc == old(w.bundleStartDoc) && w.dict == old(w.dict)
            && w.meta == old(w.meta)
  {
    assert all + bundle[..0] == all;
    for i := 0 to |bundle|
      invariant Saved(w, all + bundle[..i]) && w.curStrings == old(w.curStrings)
      invariant w.bundles == old(w.bundles) && w.bundleStartDoc == old(w.bundleStartDoc) && w.dict == old(w.dict)
                && w.meta == old(w.meta)
    {
      var s := bundle[i];
      assert all + bundle[..i + 1] == all + bundle[..i] + [s];
      FreshOne(all + bundle[..i], s, DocKey, {});
      var _ := w.PushEntry(s);
    }
    assert bundle[..|bundle|] == bundle;
  }

  /** One in-memory bundle becomes one bundle of the file, if it adds anything. */
  method SaveBundle(w: ArchiveWriter, ghost bundles: seq<seq<Stored>>, bundle: seq<Stored>, ghost b: nat)
    requires b < |bundles| && bundle == bundles[b] && forall i :: 0 <= i < |bundle| ==> Savable(bundle[i])
    requires Saved(w, Flatten(bundles[..b])) && w.bundleStartDoc == |w.docs|
             && Counts(w.bundles) == Sizes(bundles[..b], DocKey)
    modifies w, w.curStrings
    ensures Saved(w, Flatten(bundles[..b + 1])) && w.bundleStartDoc == |w.docs|
            && Counts(w.bundles) == Sizes(bundles[..b + 1], DocKey)
    ensures (w.curStrings == old(w.curStrings) || fresh(w.curStrings)) && w.dict == old(w.dict) && w.meta == old(w.meta)
  {
    RunAdded(bundles, b, DocKey);
    FreshMore(Flatten(bundles[..b]), bundle, DocKey);
    PushAll(w, bundle, Flatten(bundles[..b]));
    w.SealBundle();
  }

  /**
     Writes the archive bundle by bundle. It fails only on a metadata table that has not one row for
     each document kept.
   */
  method WriteTo(fmt: Format, bundles: seq<seq<Stored>>, meta: Option<M.Table>)
      returns (r: Result<Bytes, Writer.Error>, ghost c: Contents, ghost footer: Footer)
    requires Trusted(fmt)
    requires forall b, i :: 0 <= b < |bundles| && 0 <= i < |bundles[b]| ==> Savable(bundles[b][i])
    ensures r.Err? <==> meta.Some? && M.ColumnRows(meta.value.columns) != |Fresh(Flatten(bundles), DocKey, {})|
    ensures r.Ok? ==> FinishedAs(fmt, r.value, c, footer) && footer.meta == meta && footer.dict == None
    ensures r.Ok? ==> c.stored == Fresh(Flatten(bundles), DocKey, {}) && Counts(c.bundles) == Sizes(bundles, DocKey)
  {
    var w := new ArchiveWriter.Create(fmt);
    w.meta := meta;
    NoDocsNoBundles(w.fmt, w.out, w.View());
    for b := 0 to |bundles|
      invariant Saved(w, Flatten(bundles[..b])) && fresh(w) && fresh(w.curStrings) && w.fmt == fmt
      invariant w.bundleStartDoc == |w.docs| && Counts(w.bundles) == Sizes(bundles[..b], DocKey) && w.dict == None
                && w.meta == meta
    {
      SaveBundle(w, bundles, bundles[b], b);
    }
    assert bundles[..|bundles|] == bundles;
    r, footer := w.FinishSealed();
    c := w.View();
  }

  // ---- loading ----

  datatype Loaded = Loaded(bundles: seq<seq<Stored>>, meta: Option<M.Table>)

  /** What stops loading: a failed check, or a text frame that does not inflate, which panics. */
  datatype Failure = Refused(why: R.Error) | CorruptFrame

  /** One document: its entry, and its text out of its bundle's block. */
  function EntryOf(fmt: Format, file: Bytes, row: DocEntry, c: Codec, t: B.Tables, slot: nat): Result<Stored, Failure>
    requires B.WellTabled(t) && slot + 1 < |t.docs|
  {
    match R.CheckBlob(fmt, file, row)
    case Err(e) => Err(Refused(e))
    case Ok(html) =>
      match B.SlotPool(c, t, slot)
      case None => Err(CorruptFrame)
      case Some(pool) => Ok(Stored(html.key, html.checksum, html.body, B.Text(pool, html.nodes)))
  }

  /** `bundle` is what the descriptor `d` says: a sound block, and each of its documents with its text. */
  ghost predicate BundleLoads(fmt: Format, file: Bytes, docs: seq<DocEntry>, c: Codec, d: BundleDesc,
      bundle: seq<Stored>)
  {
    && R.CheckBlock(fmt, file, d).Ok? && |bundle| == d.docCount && d.docStart + d.docCount <= |docs|
    && forall slot :: 0 <= slot < d.docCount ==> SlotLoads(fmt, file, docs, c, d, bundle, slot)
  }

  ghost predicate SlotLoads(fmt: Format, file: Bytes, docs: seq<DocEntry>, c: Codec, d: BundleDesc,
      bundle: seq<Stored>, slot: nat)
    requires slot < d.docCount == |bundle| && d.docStart + d.docCount <= |docs| && R.CheckBlock(fmt, file, d).Ok?
  {
    EntryOf(fmt, file, docs[d.docStart + slot], c, R.CheckBlock(fmt, file, d).value, slot) == Ok(bundle[slot])
  }

  /** The dictionary region, `None` if it lies outside the file. */
  function Dictionary(file: Bytes, t: T.Trailer): Option<Option<Bytes>> {
    if t.dict.len == 0 then Some(None)
    else match Slice(file, t.dict.off, t.dict.len) case None => None case Some(d) => Some(Some(d))
  }

  /** The metadata region, `None` if its table is malformed or has not one row for each document. */
  ghost predicate MetaLoads(fmt: Format, file: Bytes, t: T.Trailer, n: nat, meta: Option<M.Table>) {
    if t.meta.len == 0 then meta == None
    else meta.Some? && R.Access(file, t.meta, fmt.ser.getMeta) == meta && M.TableSound(meta.value, n)
  }

  /** What loading a file means, whatever file it is. */
  ghost predicate Loads(fmt: Format, file: Bytes, l: Loaded) {
    T.ReadFromTail(file).Ok? &&
    var t := T.ReadFromTail(file).value;
    var docs, descs := R.Access(file, t.docTable, fmt.ser.getDocs), R.Access(file, t.bundleTable, fmt.ser.getBundles);
    && docs.Some? && descs.Some? && R.Tiled(descs.value, |docs.value|) && Dictionary(file, t).Some?
    && BundlesLoad(fmt, file, docs.value, fmt.codecOf(Dictionary(file, t).value), descs.value, l.bundles)
    && MetaLoads(fmt, file, t, |docs.value|, l.meta)
  }

  ghost predicate BundlesLoad(fmt: Format, file: Bytes, docs: seq<DocEntry>, c: Codec, descs: seq<BundleDesc>,
      bundles: seq<seq<Stored>>)
  {
    |bundles| == |descs| && forall b :: 0 <= b < |descs| ==> BundleLoads(fmt, file, docs, c, descs[b], bundles[b])
  }

  /** Loads the file exactly if it can be loaded; all checks are made on the way. */
  method ReadFrom(fmt: Format, file: Bytes) returns (r: Result<Loaded, Failure>)
    ensures r.Ok? ==> Loads(fmt, file, r.value)
    ensures r.Err? ==> forall l :: !Loads(fmt, file, l)
  {
    var selected := T.ReadFromTail(file);
    if selected.Err? {
      return Err(Refused(R.BadFile(selected.error)));
    }
    var t := selected.value;
    var docs := R.Access(file, t.docTable, fmt.ser.getDocs);
    if docs.None? {
      return Err(Refused(R.BadDocTable));
    }
    var descs := R.Access(file, t.bundleTable, fmt.ser.getBundles);
    if descs.None? {
      return Err(Refused(R.BadBundleTable));
    }
    var dict := Dictionary(file, t);
    if dict.None? {
      return Err(Refused(R.BadDictionary));
    }
    var bundles := ReadBundles(fmt, file, docs.value, fmt.codecOf(dict.value), descs.value);
    if bundles.Err? {
      return Err(bundles.error);
    }
    var meta := None;
    if t.meta.len > 0 {
      meta := R.Access(file, t.meta, fmt.ser.getMeta);
      if meta.None? {
        return Err(Refused(R.BadMeta));
      }
      var unsound := M.ValidateArchived(meta.value, |docs.value|);
      if unsound.Some? {
        return Err(Refused(R.BadMeta));
      }
    }
    return Ok(Loaded(bundles.value, meta));
  }

  /** The bundles in order, each starting where the one before ended, until the doc table is used up. */
  method ReadBundles(fmt: Format, file: Bytes, docs: seq<DocEntry>, c: Codec, descs: seq<BundleDesc>)
      returns (r: Result<seq<seq<Stored>>, Failure>)
    ensures r.Ok? ==> R.Tiled(descs, |docs|) && BundlesLoad(fmt, file, docs, c, descs, r.value)
    ensures r.Err? ==> forall x :: !(R.Tiled(descs, |docs|) && BundlesLoad(fmt, file, docs, c, descs, x))
  {
    var bundles := [];
    var next := 0;
    for b := 0 to |descs|
      invariant |bundles| == b && next == Covered(descs, b)
      invariant forall j :: 0 <= j < b ==> R.StartsRight(descs, j)
      invariant forall j :: 0 <= j < b ==> BundleLoads(fmt, file, docs, c, descs[j], bundles[j]) == true
    {
      if descs[b].docStart != next {
        assert !R.StartsRight(descs, b);
        return Err(Refused(R.BundlesNotContiguous));
      }
      assert R.StartsRight(descs, b);
      var bundle := ReadBundle(fmt, file, docs, c, descs[b]);
      if bundle.Err? {
        return Err(bundle.error);
      }
      next := next + descs[b].docCount;
      bundles := bundles + [bundle.value];
    }
    return if next != |docs| then Err(Refused(R.BundlesShort)) else Ok(bundles);
  }

  /** One bundle: its block, and each of its documents with its text put back. */
  method ReadBundle(fmt: Format, file: Bytes, docs: seq<DocEntry>, c: Codec, d: BundleDesc)
      returns (r: Result<seq<Stored>, Failure>)
    ensures r.Ok? ==> BundleLoads(fmt, file, docs, c, d, r.value)
    ensures r.Err? ==> forall x :: !BundleLoads(fmt, file, docs, c, d, x)
  {
    var block := R.CheckBlock(fmt, file, d);
    if block.Err? {
      return Err(Refused(block.error));
    }
    var t, bundle := block.value, [];
    for slot := 0 to d.docCount
      invariant |bundle| == slot && (slot > 0 ==> d.docStart + slot <= |docs|)
      invariant forall k :: 0 <= k < slot ==> EntryOf(fmt, file, docs[d.docStart + k], c, t, k) == Ok(bundle[k])
    {
      if d.docStart + slot >= |docs| {
        return Err(Refused(R.BundlesShort));
      }
      var doc := ReadEntry(fmt, file, docs[d.docStart + slot], c, t, slot);
      if doc.Err? {
        assert forall x :: BundleLoads(fmt, file, docs, c, d, x) ==> SlotLoads(fmt, file, docs, c, d, x, slot);
        return Err(doc.error);
      }
      bundle := bundle + [doc.value];
    }
    if d.docStart + d.docCount > |docs| {
      return Err(Refused(R.BundlesShort));
    }
    return Ok(bundle);
  }

  method ReadEntry(fmt: Format, file: Bytes, row: DocEntry, c: Codec, t: B.Tables, slot: nat)
      returns (r: Result<Stored, Failure>)
    requires B.WellTabled(t) && slot + 1 < |t.docs|
    ensures r == EntryOf(fmt, file, row, c, t, slot)
  {
    var html := R.CheckBlob(fmt, file, row);
    if html.Err? {
      return Err(Refused(html.error));
    }
    var pool := B.MaterializeDoc(c, t, slot);
    if pool.None? {
      return Err(CorruptFrame);
    }
    return Ok(Stored(html.value.key, html.value.checksum, html.value.body, B.Text(pool.value, html.value.nodes)));
  }

  // ---- finished files ----

  /** `stored`, cut as the bundle table says. */
  function Cut(stored: seq<Stored>, bundles: seq<BundleDesc>, n: nat): (groups: seq<seq<Stored>>)
    requires n <= |bundles|
    ensures |groups| == n
  {
    if n == 0 then [] else Cut(stored, bundles, n - 1) + [Stretch(stored, bundles, n - 1)]
  }

  function Stretch(stored: seq<Stored>, bundles: seq<BundleDesc>, b: nat): seq<Stored>
    requires b < |bundles|
  {
    if Covered(bundles, b + 1) <= |stored| then stored[Covered(bundles, b)..Covered(bundles, b + 1)] else []
  }

  lemma {:induction false} CutAll(stored: seq<Stored>, bundles: seq<BundleDesc>, n: nat)
    requires n <= |bundles| && Covered(bundles, n) <= |stored|
    ensures Flatten(Cut(stored, bundles, n)) == stored[..Covered(bundles, n)]
    ensures forall b :: 0 <= b < n ==> Cut(stored, bundles, n)[b] == Stretch(stored, bundles, b)
  {
    if n > 0 {
      CutAll(stored, bundles, n - 1);
      FlattenOne(Cut(stored, bundles, n - 1), Stretch(stored, bundles, n - 1));
    }
  }

  /** A file whose selected trailer `Finish` has written, whatever an interrupted append has left behind it. */
  ghost predicate FinishedIn(fmt: Format, file: Bytes, at: nat, c: Contents, f: Footer) {
    && |file| < 0x1_0000_0000_0000_0000 && at + T.TRAILER_LEN <= |file|
    && FinishedAs(fmt, file[..at + T.TRAILER_LEN], c, f) && T.ReadFromTail(file) == Ok(f.trailer)
    && (f.meta.Some? ==> M.TableSound(f.meta.value, |c.docs|))
  }

  /** A finished file whose bundles fit their tables loads: its stored documents, in their bundles, its metadata. */
  lemma FinishedLoads(fmt: Format, file: Bytes, at: nat, c: Contents, f: Footer)
    requires Trusted(fmt) && FinishedIn(fmt, file, at, c, f) && AllFit(c)
    ensures Loads(fmt, file, Loaded(Cut(c.stored, c.bundles, |c.bundles|), f.meta))
    ensures Flatten(Cut(c.stored, c.bundles, |c.bundles|)) == c.stored
  {
    R.FinishedOpens(fmt, file, at, c, f);
    CutAll(c.stored, c.bundles, |c.bundles|);
    assert c.stored[..|c.stored|] == c.stored;
    var groups := Cut(c.stored, c.bundles, |c.bundles|);
    forall b | 0 <= b < |c.bundles| ensures BundleLoads(fmt, file, c.docs, fmt.codecOf(c.dict), c.bundles[b],
        groups[b]) {
      FinishedBundle(fmt, file, c, b);
    }
  }

  lemma FinishedBundle(fmt: Format, file: Bytes, c: Contents, b: nat)
    requires Trusted(fmt) && ContentsOk(fmt, file, c) && b < |c.bundles| && BundleFits(c, b)
             && |file| < 0x1_0000_0000_0000_0000
    ensures BundleLoads(fmt, file, c.docs, fmt.codecOf(c.dict), c.bundles[b], Stretch(c.stored, c.bundles, b))
  {
    var d, bundle, codec := c.bundles[b], Stretch(c.stored, c.bundles, b), fmt.codecOf(c.dict);
    StretchLength(fmt, file, c, b);
    R.BlockReads(fmt, file, c, b);
    assert bundle == c.stored[d.docStart..d.docStart + d.docCount] by {
      assert BundleAt(fmt, file, c, b);
    }
    forall slot | 0 <= slot < d.docCount ensures SlotLoads(fmt, file, c.docs, codec, d, bundle, slot) {
      FinishedSlot(fmt, file, c, b, slot);
    }
  }

  lemma FinishedSlot(fmt: Format, file: Bytes, c: Contents, b: nat, slot: nat)
    requires Trusted(fmt) && ContentsOk(fmt, file, c) && b < |c.bundles| && BundleFits(c, b)
             && |file| < 0x1_0000_0000_0000_0000 && slot < c.bundles[b].docCount
    ensures var d := c.bundles[b];
            && R.CheckBlock(fmt, file, d).Ok? && d.docStart + d.docCount <= |c.docs| == |c.stored|
            && EntryOf(fmt, file, c.docs[d.docStart + slot], fmt.codecOf(c.dict), R.CheckBlock(fmt, file, d).value,
                       slot)
               == Ok(c.stored[d.docStart + slot])
  {
    assert BundleAt(fmt, file, c, b);
    R.BlockReads(fmt, file, c, b);
    R.DocumentReads(fmt, file, c, c.bundles[b].docStart + slot, b);
  }

  /** A file loads as one thing only. */
  lemma LoadsOnce(fmt: Format, file: Bytes, l: Loaded, l': Loaded)
    requires Loads(fmt, file, l) && Loads(fmt, file, l')
    ensures l == l'
  {
    var t := T.ReadFromTail(file).value;
    var docs, descs := R.Access(file, t.docTable, fmt.ser.getDocs).value,
        R.Access(file, t.bundleTable, fmt.ser.getBundles).value;
    var c := fmt.codecOf(Dictionary(file, t).value);
    forall b | 0 <= b < |descs| ensures l.bundles[b] == l'.bundles[b] {
      assert BundleLoads(fmt, file, docs, c, descs[b], l.bundles[b])
             && BundleLoads(fmt, file, docs, c, descs[b], l'.bundles[b]);
      forall slot | 0 <= slot < descs[b].docCount ensures l.bundles[b][slot] == l'.bundles[b][slot] {
        assert SlotLoads(fmt, file, docs, c, descs[b], l.bundles[b], slot)
               && SlotLoads(fmt, file, docs, c, descs[b], l'.bundles[b], slot);
      }
    }
  }

  /**
   Loading a finished file and saving it again, without a dictionary whatever the file had, keeps
   documents, bundles and metadata.
   */
  method Resave(fmt: Format, file: Bytes, ghost at: nat, ghost c: Contents, ghost f: Footer) returns (again: Bytes)
    requires Trusted(fmt) && FinishedIn(fmt, file, at, c, f) && AllFit(c)
    requires forall i :: 0 <= i < |c.stored| ==> Savable(c.stored[i])
    ensures exists c', f' ::
              && FinishedAs(fmt, again, c', f') && c'.stored == c.stored && Counts(c'.bundles) == Counts(c.bundles)
              && f'.meta == f.meta && f'.dict == None
  {
    FinishedLoads(fmt, file, at, c, f);
    var loaded := ReadFrom(fmt, file);
    LoadsOnce(fmt, file, loaded.value, Loaded(Cut(c.stored, c.bundles, |c.bundles|), f.meta));
    KeptWhole(fmt, file[..at + T.TRAILER_LEN], c);
    CutAll(c.stored, c.bundles, |c.bundles|);
    forall b, i | 0 <= b < |c.bundles| && 0 <= i < |loaded.value.bundles[b]|
        ensures Savable(loaded.value.bundles[b][i]) {
      StretchLength(fmt, file[..at + T.TRAILER_LEN], c, b);
      assert loaded.value.bundles[b][i] in c.stored;
    }
    var r;
    ghost var c', f';
    r, c', f' := WriteTo(fmt, loaded.value.bundles, loaded.value.meta);
    again := r.value;
  }

  lemma KeptWhole(fmt: Format, out: Bytes, c: Contents)
    requires ContentsOk(fmt, out, c) && Covered(c.bundles, |c.bundles|) == |c.stored|
    ensures var bundles := Cut(c.stored, c.bundles, |c.bundles|);
            Fresh(Flatten(bundles), DocKey, {}) == c.stored && Sizes(bundles, DocKey) == Counts(c.bundles)
  {
    var bundles := Cut(c.stored, c.bundles, |c.bundles|);
    CutAll(c.stored, c.bundles, |c.bundles|);
    assert Flatten(bundles) == c.stored by {
      assert c.stored[..|c.stored|] == c.stored;
    }
    KeysApart(fmt, out, c);
    forall b | 0 <= b < |bundles| ensures bundles[b] != [] && |bundles[b]| == c.bundles[b].docCount {
      StretchLength(fmt, out, c, b);
    }
    AllFresh(c.stored, DocKey, {});
    FullSizes(bundles, DocKey);
  }

  lemma KeysApart(fmt: Format, out: Bytes, c: Contents)
    requires ContentsOk(fmt, out, c)
    ensures forall i, j :: 0 <= i < j < |c.stored| ==> DocKey(c.stored[i]) != DocKey(c.stored[j])
  {
    forall i, j | 0 <= i < j < |c.stored| ensures DocKey(c.stored[i]) != DocKey(c.stored[j]) {
      assert DocAt(fmt, out, c.docs[i], c.stored[i]) && DocAt(fmt, out, c.docs[j], c.stored[j]);
    }
  }

  lemma StretchLength(fmt: Format, out: Bytes, c: Contents, b: nat)
    requires ContentsOk(fmt, out, c) && b < |c.bundles|
    ensures 0 < |Stretch(c.stored, c.bundles, b)| == c.bundles[b].docCount
    ensures forall x :: x in Stretch(c.stored, c.bundles, b) ==> x in c.stored
  {
    assert BundleAt(fmt, out, c, b);
  }
}
