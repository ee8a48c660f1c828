/**
 What an archive file holds between its header and its trailer: document blobs and, behind each
 bundle's documents, the bundle's text block; and what the serializer in use is trusted with.
 */
module Layout {
  import opened Wrappers
  import opened LittleEndian
  import opened TextBlocks
  import opened DocTable
  import B = BundleStrings
  import M = Meta
  import T = Trailer

  /** A document as handed to the writer: its text pool with the text nodes, and what else its DOM consists of. */
  datatype Stored = Stored(key: Key, checksum: nat, body: Bytes, text: B.Text)

  /** What is serialized of a document once its pool has been moved out. */
  datatype Html = Html(key: Key, checksum: nat, nodes: seq<Range>, body: Bytes)

  datatype BundleDesc = BundleDesc(docStart: nat, docCount: nat, off: nat, len: nat)

  // ---- the serializer ----

  datatype Serializer = Serializer(
    putHtml: Html -> Bytes, getHtml: Bytes -> Option<Html>,
    putDocs: seq<DocEntry> -> Bytes, getDocs: Bytes -> Option<seq<DocEntry>>,
    putBundles: seq<BundleDesc> -> Bytes, getBundles: Bytes -> Option<seq<BundleDesc>>,
    putSort: seq<nat> -> Bytes, getSort: Bytes -> Option<seq<nat>>,
    putTables: B.Tables -> Bytes, getTables: Bytes -> Option<B.Tables>,
    putMeta: M.Table -> Bytes, getMeta: Bytes -> Option<M.Table>)

  /** What was put comes back; a text block's length is a multiple of 8, and a metadata table is not empty. */
  ghost predicate Faithful(s: Serializer) {
    && (forall x :: s.getHtml(s.putHtml(x)) == Some(x))
    && (forall x :: s.getDocs(s.putDocs(x)) == Some(x)) && (forall x :: s.getBundles(s.putBundles(x)) == Some(x))
    && (forall x :: s.getSort(s.putSort(x)) == Some(x))
    && (forall x :: s.getMeta(s.putMeta(x)) == Some(x) && s.putMeta(x) != [])
    && (forall x :: s.getTables(s.putTables(x)) == Some(x) && |s.putTables(x)| % 8 == 0)
  }

  // ---- regions ----

  predicate InFile(out: Bytes, off: nat, len: nat) {
    off % 8 == 0 && T.HEADER_LEN <= off && off + len <= |out|
  }

  function Slice(out: Bytes, off: nat, len: nat): Option<Bytes> {
    if off + len <= |out| then Some(out[off..off + len]) else None
  }

  /** The aligned region at `off` of length `len` holds exactly `what`. */
  predicate RegionIs(out: Bytes, off: nat, len: nat, what: Bytes) {
    InFile(out, off, len) && out[off..off + len] == what
  }

  lemma RegionKept(out: Bytes, more: Bytes, off: nat, len: nat, what: Bytes)
    requires RegionIs(out, off, len, what)
    ensures RegionIs(out + more, off, len, what)
  {
    assert (out + more)[off..off + len] == out[off..off + len];
  }

  lemma RegionWritten(out: Bytes, what: Bytes, more: Bytes)
    requires |out| % 8 == 0 && T.HEADER_LEN <= |out|
    ensures RegionIs(out + what + more, |out|, |what|, what)
  {
    assert (out + what + more)[|out|..|out| + |what|] == what;
  }

  // ---- bundles ----

  /** How many documents the first `k` bundles cover. */
  function Covered(bundles: seq<BundleDesc>, k: nat): nat
    requires k <= |bundles|
  {
    if k == 0 then 0 else Covered(bundles, k - 1) + bundles[k - 1].docCount
  }

  /** How many documents each bundle covers. */
  function Counts(bundles: seq<BundleDesc>): (counts: seq<nat>)
    ensures |counts| == |bundles| && forall b :: 0 <= b < |bundles| ==> counts[b] == bundles[b].docCount
  {
    seq(|bundles|, b requires 0 <= b < |bundles| => bundles[b].docCount)
  }

  lemma {:induction false} CoveredGrows(bundles: seq<BundleDesc>, j: nat, k: nat)
    requires j <= k <= |bundles|
    ensures Covered(bundles, j) <= Covered(bundles, k)
  {
    if j < k { CoveredGrows(bundles, j, k - 1); }
  }

  lemma {:induction false} CoveredPrefix(bundles: seq<BundleDesc>, more: BundleDesc, k: nat)
    requires k <= |bundles|
    ensures Covered(bundles + [more], k) == Covered(bundles, k)
  {
    if k > 0 { CoveredPrefix(bundles, more, k - 1); }
  }

  function TextsOf(stored: seq<Stored>): (texts: seq<B.Text>)
    ensures |texts| == |stored| && forall i :: 0 <= i < |stored| ==> texts[i] == stored[i].text
  {
    seq(|stored|, i requires 0 <= i < |stored| => stored[i].text)
  }

  // ---- contents ----

  /** Everything an archive's tables say, next to what they stand for; `dict` is what the text frames were made with. */
  datatype Contents =
    Contents(docs: seq<DocEntry>, bundles: seq<BundleDesc>, blocks: seq<B.Tables>, stored: seq<Stored>,
        dict: Option<Bytes>)

  /** How keys are measured, how tables are serialized, and the codec that each dictionary, or none, makes. */
  datatype Format = Format(graphemes: Key -> nat, ser: Serializer, codecOf: Option<Bytes> -> Codec)

  /** What the archive's serializer and codecs are trusted with. */
  ghost predicate Trusted(fmt: Format) {
    Faithful(fmt.ser) && forall d :: Lossless(fmt.codecOf(d))
  }

  /** An empty dictionary is stored as no dictionary. */
  function NonEmpty(d: Option<Bytes>): Option<Bytes> {
    if d == Some([]) then None else d
  }

  function HtmlOf(s: Stored): Html {
    Html(s.key, s.checksum, s.text.nodes, s.body)
  }

  predicate DocAt(fmt: Format, out: Bytes, d: DocEntry, s: Stored) {
    && d.key == s.key && d.keyLen == fmt.graphemes(s.key) && d.checksum == s.checksum
    && RegionIs(out, d.off, d.len, fmt.ser.putHtml(HtmlOf(s)))
  }

  /** The documents of the bundle `d`. */
  function TextsIn(c: Contents, d: BundleDesc): seq<B.Text>
    requires d.docStart + d.docCount <= |c.stored|
  {
    TextsOf(c.stored[d.docStart..d.docStart + d.docCount])
  }

  /** The block holds the texts, if 32-bit tables can number them. */
  ghost predicate BlockAt(fmt: Format, t: B.Tables, texts: seq<B.Text>, dict: Option<Bytes>) {
    B.Fits(t, texts) ==> B.Holds(fmt.codecOf(dict), t, texts)
  }

  /** Bundle `b` covers the next run of documents, and its block holds their texts. */
  ghost predicate BundleAt(fmt: Format, out: Bytes, c: Contents, b: nat)
    requires b < |c.bundles| == |c.blocks|
  {
    var d := c.bundles[b];
    && d.docStart == Covered(c.bundles, b) && 0 < d.docCount && d.docStart + d.docCount <= |c.stored|
    && RegionIs(out, d.off, d.len, fmt.ser.putTables(c.blocks[b]))
    && BlockAt(fmt, c.blocks[b], TextsIn(c, d), c.dict)
  }

  /** No two blobs overlap, and a bundle's block lies behind its documents and before all later ones. */
  ghost predicate Ascending(c: Contents) {
    && (forall i, j :: 0 <= i < j < |c.docs| ==> DocEnd(c, i) <= c.docs[j].off)
    && (forall b, d :: 0 <= b < d < |c.bundles| ==> BundleEnd(c, b) <= c.bundles[d].off)
    && (forall i, b :: 0 <= i < |c.docs| && 0 <= b < |c.bundles| ==> Beside(c, i, b))
  }

  function DocEnd(c: Contents, i: nat): nat
    requires i < |c.docs|
  {
    c.docs[i].off + c.docs[i].len
  }

  function BundleEnd(c: Contents, b: nat): nat
    requires b < |c.bundles|
  {
    c.bundles[b].off + c.bundles[b].len
  }

  predicate Beside(c: Contents, i: nat, b: nat)
    requires i < |c.docs| && b < |c.bundles|
  {
    if i < Covered(c.bundles, b) + c.bundles[b].docCount then DocEnd(c, i) <= c.bundles[b].off
        else BundleEnd(c, b) <= c.docs[i].off
  }

  ghost predicate ContentsOk(fmt: Format, out: Bytes, c: Contents) {
    && |c.docs| == |c.stored| && |c.blocks| == |c.bundles|
    && (forall i :: 0 <= i < |c.docs| ==> DocAt(fmt, out, c.docs[i], c.stored[i]))
    && (forall b :: 0 <= b < |c.bundles| ==> BundleAt(fmt, out, c, b))
    && Ascending(c) && UniqueKeys(c.docs)
  }

  /** Every bundle covers a document, so without documents there are none. */
  lemma NoDocsNoBundles(fmt: Format, out: Bytes, c: Contents)
    requires ContentsOk(fmt, out, c)
    ensures c.bundles != [] ==> c.stored != []
  {
    if c.bundles != [] { assert BundleAt(fmt, out, c, 0); }
  }

  /** Writing on at the end of the file disturbs nothing stored. */
  lemma ContentsKept(fmt: Format, out: Bytes, more: Bytes, c: Contents)
    requires ContentsOk(fmt, out, c)
    ensures ContentsOk(fmt, out + more, c)
  {
    forall i | 0 <= i < |c.docs| ensures DocAt(fmt, out + more, c.docs[i], c.stored[i]) {
      assert DocAt(fmt, out, c.docs[i], c.stored[i]);
      RegionKept(out, more, c.docs[i].off, c.docs[i].len, fmt.ser.putHtml(HtmlOf(c.stored[i])));
    }
    forall b | 0 <= b < |c.bundles| ensures BundleAt(fmt, out + more, c, b) {
      assert BundleAt(fmt, out, c, b);
      RegionKept(out, more, c.bundles[b].off, c.bundles[b].len, fmt.ser.putTables(c.blocks[b]));
    }
  }

  function WithDoc(c: Contents, d: DocEntry, s: Stored): Contents {
    c.(docs := c.docs + [d], stored := c.stored + [s])
  }

  /** A document with a new key, its blob written at the end of the file. */
  lemma DocAdded(fmt: Format, out: Bytes, c: Contents, d: DocEntry, s: Stored)
    requires ContentsOk(fmt, out, c) && DocAt(fmt, out, d, s) && forall i :: 0 <= i < |c.docs| ==>
             c.docs[i].key != d.key
    requires forall i :: 0 <= i < |c.docs| ==> DocEnd(c, i) <= d.off
    requires forall b :: 0 <= b < |c.bundles| ==> BundleEnd(c, b) <= d.off
    ensures ContentsOk(fmt, out, WithDoc(c, d, s))
  {
    var e := WithDoc(c, d, s);
    forall i | 0 <= i < |e.docs| ensures DocAt(fmt, out, e.docs[i], e.stored[i]) {
      if i < |c.docs| { assert DocAt(fmt, out, c.docs[i], c.stored[i]); }
    }
    forall b | 0 <= b < |e.bundles| ensures BundleAt(fmt, out, e, b) {
      assert BundleAt(fmt, out, c, b);
      var from, to := c.bundles[b].docStart, c.bundles[b].docStart + c.bundles[b].docCount;
      assert e.stored[from..to] == c.stored[from..to];
    }
    forall i, b | 0 <= i < |e.docs| && 0 <= b < |e.bundles| ensures Beside(e, i, b) {
      if i < |c.docs| {
        assert Beside(c, i, b) && DocEnd(e, i) == DocEnd(c, i);
      } else {
        assert BundleAt(fmt, out, c, b);
        assert Covered(c.bundles, b) + c.bundles[b].docCount <= |c.docs| && BundleEnd(e, b) == BundleEnd(c, b);
      }
    }
    forall i, j | 0 <= i < j < |e.docs| ensures DocEnd(e, i) <= e.docs[j].off {
      assert DocEnd(e, i) == DocEnd(c, i);
    }
    forall b, k | 0 <= b < k < |e.bundles| ensures BundleEnd(e, b) <= e.bundles[k].off {
      assert BundleEnd(e, b) == BundleEnd(c, b);
    }
  }

  function WithBundle(c: Contents, d: BundleDesc, t: B.Tables): Contents {
    c.(bundles := c.bundles + [d], blocks := c.blocks + [t])
  }

  /** A bundle over all documents not yet covered, its block written at the end of the file. */
  lemma BundleAdded(fmt: Format, out: Bytes, c: Contents, d: BundleDesc, t: B.Tables)
    requires ContentsOk(fmt, out, c)
    requires d.docStart == Covered(c.bundles, |c.bundles|) && d.docStart + d.docCount == |c.docs| && 0 < d.docCount
    requires RegionIs(out, d.off, d.len, fmt.ser.putTables(t))
             && BlockAt(fmt, t, TextsOf(c.stored[d.docStart..]), c.dict)
    requires forall i :: 0 <= i < |c.docs| ==> DocEnd(c, i) <= d.off
    requires forall b :: 0 <= b < |c.bundles| ==> BundleEnd(c, b) <= d.off
    ensures ContentsOk(fmt, out, WithBundle(c, d, t))
            && Covered(WithBundle(c, d, t).bundles, |c.bundles| + 1) == |c.docs|
  {
    var e := WithBundle(c, d, t);
    var n := |c.bundles|;
    CoveredPrefix(c.bundles, d, n);
    assert c.stored[d.docStart..|c.docs|] == c.stored[d.docStart..];
    forall b | 0 <= b < |e.bundles| ensures BundleAt(fmt, out, e, b) {
      if b < n {
        assert BundleAt(fmt, out, c, b);
        CoveredPrefix(c.bundles, d, b);
      }
    }
    forall i, b | 0 <= i < |e.docs| && 0 <= b < |e.bundles| ensures Beside(e, i, b) {
      assert DocEnd(e, i) == DocEnd(c, i);
      if b < n {
        assert Beside(c, i, b) && BundleEnd(e, b) == BundleEnd(c, b);
        CoveredPrefix(c.bundles, d, b);
      }
    }
    forall i, j | 0 <= i < j < |e.docs| ensures DocEnd(e, i) <= e.docs[j].off {
      assert DocEnd(e, i) == DocEnd(c, i);
    }
    forall b, k | 0 <= b < k < |e.bundles| ensures BundleEnd(e, b) <= e.bundles[k].off {
      assert BundleEnd(e, b) == BundleEnd(c, b);
    }
  }

  lemma EndsInFile(fmt: Format, out: Bytes, c: Contents)
    requires ContentsOk(fmt, out, c)
    ensures forall i :: 0 <= i < |c.docs| ==> DocEnd(c, i) <= |out|
    ensures forall b :: 0 <= b < |c.bundles| ==> BundleEnd(c, b) <= |out|
  {
    forall i | 0 <= i < |c.docs| ensures DocEnd(c, i) <= |out| { assert DocAt(fmt, out, c.docs[i], c.stored[i]); }
    forall b | 0 <= b < |c.bundles| ensures BundleEnd(c, b) <= |out| {
      assert BundleAt(fmt, out, c, b);
    }
  }

  /** Bundle `b` can be numbered by 32-bit tables. */
  predicate BundleFits(c: Contents, b: nat)
    requires b < |c.bundles| == |c.blocks|
  {
    var d := c.bundles[b];
    d.docStart + d.docCount <= |c.stored| && B.Fits(c.blocks[b], TextsIn(c, d))
  }

  ghost predicate AllFit(c: Contents) {
    |c.blocks| == |c.bundles| && forall b :: 0 <= b < |c.bundles| ==> BundleFits(c, b)
  }
}
