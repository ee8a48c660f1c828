/**
 The one way an interrupted append can lose the old archive from view: the stream a writer produces
 may hold, in a document, bytes that read as a trailer.
 */
module FalseTails {
  import opened Wrappers
  import opened LittleEndian
  import opened DocTable
  import opened Layout
  import opened Writer
  import B = BundleStrings
  import T = Trailer
  import P = AppendProtocol
  import W = Witness

  // ---- a serializer that writes a document's bytes as they are ----

  function LeadingOnes(b: Bytes): (n: nat)
    ensures n <= |b|
  {
    if b == [] || b[0] != 1 then 0 else 1 + LeadingOnes(b[1..])
  }

  lemma {:induction false} OnesLead(n: nat, rest: Bytes)
    ensures LeadingOnes(W.Ones(n) + [0] + rest) == n
  {
    var b := W.Ones(n) + [0] + rest;
    if n > 0 {
      OnesLead(n - 1, rest);
      assert b[1..] == W.Ones(n - 1) + [0] + rest;
    }
  }

  /** The body's length in ones, a zero, the body, and the other fields behind it. */
  function PutHtml(h: Html): Bytes {
    W.Ones(|h.body|) + [0] + (h.body + W.Put([W.OfHtml(h.(body := []))]))
  }

  function GetHtml(b: Bytes): Option<Html> {
    var n := LeadingOnes(b);
    if 2 * n + 1 > |b| then None
    else
      match W.One(W.ToHtml, W.Get(b[2 * n + 1..]))
      case None => None
      case Some(h) => Some(h.(body := b[n + 1..2 * n + 1]))
  }

  lemma HtmlReads(h: Html)
    ensures GetHtml(PutHtml(h)) == Some(h)
  {
    var n, b, bare := |h.body|, PutHtml(h), h.(body := []);
    OnesLead(n, h.body + W.Put([W.OfHtml(bare)]));
    W.GetPut([W.OfHtml(bare)]);
    assert b[n + 1..2 * n + 1] == h.body && b[2 * n + 1..] == W.Put([W.OfHtml(bare)]);
    assert bare.(body := h.body) == h;
  }

  function Verbatim(): Format {
    Format(_ => 0, W.Plain().(putHtml := PutHtml, getHtml := GetHtml), _ => W.AsIs())
  }

  lemma VerbatimIsTrusted()
    ensures Trusted(Verbatim())
  {
    W.PlainIsFaithful();
    forall h ensures GetHtml(PutHtml(h)) == Some(h) { HtmlReads(h); }
    W.AsIsIsLossless();
  }

  // ---- an archive without documents ----

  function EmptySort(): Bytes {
    W.Put([[[]]])
  }

  lemma EmptyTables()
    ensures W.Put([]) == [] && |EmptySort()| == 8
  {
    var numbers: W.Numbers := [];
    var one, all := [numbers], [[numbers]];
    assert one[..0] == [] && all[..0] == [];
    assert W.PutRecord(one) == W.PutRecord([]) + W.PutNumbers(numbers) + [3];
    assert W.PutRecords(all) == W.PutRecords([]) + W.PutRecord(one) + [4];
  }

  /** All tables of an archive without documents are empty; its sort index takes eight bytes. */
  function NoDocuments(): Footer {
    var none := T.Region(T.HEADER_LEN, 0);
    Footer(T.Trailer(none, none, T.Region(T.HEADER_LEN, 8), none, none, 0, 0), [], None, None)
  }

  function NoContents(): Contents {
    Contents([], [], [], [], None)
  }

  function EmptyArchive(): Bytes {
    T.HeaderBytes() + EmptySort() + T.ToBytes(NoDocuments().trailer)
  }

  lemma ThreeParts(header: Bytes, sort: Bytes, tail: Bytes)
    requires |header| == 16 && |sort| == 8 && |tail| == 104
    ensures var file := header + sort + tail;
            |file| == 128 && file[..16] == header && file[16..16] == [] && file[16..24] == sort && file[24..] == tail
  {
  }

  lemma EmptyIsFinished()
    ensures |EmptyArchive()| == 128 && FinishedAs(Verbatim(), EmptyArchive(), NoContents(), NoDocuments())
    ensures T.ReadFromFile(EmptyArchive()) == Ok((NoDocuments().trailer, 24))
  {
    EmptyTables();
    ThreeParts(T.HeaderBytes(), EmptySort(), T.ToBytes(NoDocuments().trailer));
    var file := EmptyArchive();
    assert W.Each(W.OfDoc, []) == [] && W.Each(W.OfBundle, []) == [];
    EmptyFinished(Verbatim(), file, NoDocuments());
    TrailerReads(Verbatim(), file, NoContents(), NoDocuments());
    ReadsAtTail(file, NoDocuments().trailer);
  }

  lemma EmptyFinished(fmt: Format, file: Bytes, f: Footer)
    requires fmt.ser.putDocs([]) == [] && fmt.ser.putBundles([]) == [] && |fmt.ser.putSort([])| == 8 && |file| == 128
    requires file[16..16] == [] && file[16..24] == fmt.ser.putSort([]) && file[24..] == T.ToBytes(f.trailer)
    requires f.sort == [] && f.dict == None && f.meta == None && f.trailer.sortIndex == T.Region(16, 8)
    requires f.trailer.docTable == f.trailer.bundleTable == f.trailer.dict == f.trailer.meta == T.Region(16, 0)
    requires f.trailer.docCount == 0 == f.trailer.bundleCount
    ensures FinishedAs(fmt, file, NoContents(), f)
  {
    EmptyContents(fmt, file);
    EmptyRegions(file, fmt.ser.putSort([]));
    EmptyInOrder(file, f.trailer);
  }

  lemma EmptyContents(fmt: Format, file: Bytes)
    ensures ContentsOk(fmt, file, NoContents()) && SortIndexOk([], []) && Covered([], 0) == 0
  {
  }

  lemma EmptyInOrder(file: Bytes, t: T.Trailer)
    requires |file| == 128 && t.sortIndex == T.Region(16, 8)
    requires t.docTable == t.bundleTable == t.dict == t.meta == T.Region(16, 0)
    ensures FooterInOrder(file, NoContents(), t) && |file| - T.TRAILER_LEN == 24
    ensures OptionalRegion(file, t.dict, None) && OptionalRegion(file, t.meta, None)
  {
  }

  lemma EmptyRegions(file: Bytes, sort: Bytes)
    requires |file| == 128 && file[16..16] == [] && file[16..24] == sort
    ensures RegionIs(file, 16, 0, []) && RegionIs(file, 16, 8, sort)
  {
  }

  /** A file whose last bytes are a trailer is read there. */
  lemma ReadsAtTail(file: Bytes, t: T.Trailer)
    requires |file| == 128 && file[..16] == T.HeaderBytes() && T.ReadAt(file, 24) == Ok(t)
    ensures T.ReadFromFile(file) == Ok((t, 24))
  {
    assert T.HeaderBytes()[..T.PENDING_AT] == T.HEADER_START;
  }

  // ---- the append ----

  /** A document whose body is the bytes of a trailer. */
  function Posing(): Stored {
    Stored("", 0, T.ToBytes(P.EmptyTrailer()), B.Text([], []))
  }

  /** What opening an archive without documents, pushing one and finishing write. */
  method AppendOne(fmt: Format, kept: Bytes, s: Stored, ghost c0: Contents, ghost f0: Footer)
      returns (file: Bytes, off: nat, ghost c: Contents, ghost f: Footer)
    requires Trusted(fmt) && |kept| == 128 && FinishedAs(fmt, kept, c0, f0) && c0.docs == [] && f0.dict == None
    requires T.ReadFromFile(kept) == Ok((f0.trailer, 24)) && s.text.nodes == [] && s.text.pool == []
    ensures kept <= file && FinishedAs(fmt, file, c, f) && c.stored == [s] && |c.docs| == 1
    ensures DocAt(fmt, file, c.docs[0], s) && c.docs[0].off == off
    ensures |kept| <= off && off + c.docs[0].len + T.TRAILER_LEN <= |file|
  {
    assert kept[..24 + T.TRAILER_LEN] == kept;
    var w, meta := OpenForAppend(fmt, kept, c0, f0, 24);
    var isNew := w.PushEntry(s);
    off := w.docs[0].off;
    var r;
    r, f := w.Finish();
    file, c := r.value, w.View();
    OnlyDocument(fmt, file, c, f, s);
  }

  lemma OnlyDocument(fmt: Format, file: Bytes, c: Contents, f: Footer, s: Stored)
    requires FinishedAs(fmt, file, c, f) && c.stored == [s] && |c.docs| == 1
    ensures DocAt(fmt, file, c.docs[0], s) && c.docs[0].off + c.docs[0].len + T.TRAILER_LEN <= |file|
  {
    assert DocAt(fmt, file, c.docs[0], c.stored[0]);
    assert DocEnd(c, 0) <= f.trailer.dict.off;
  }

  /**
   An archive without documents, and the file a writer makes of it by appending one whose body is the
   bytes of a trailer: cut after `k` bytes of the stream, the file shows the document's bytes as its
   trailer, though the header still stages the old one.
   */
  method FalseTail() returns (fmt: Format, kept: Bytes, file: Bytes, k: nat, ghost c: Contents, ghost f: Footer)
    ensures Trusted(fmt) && |kept| == 128 && P.Selected(kept) == Some(24)
    ensures FinishedAs(fmt, kept, NoContents(), NoDocuments())
    ensures kept <= file && FinishedAs(fmt, file, c, f) && c.stored == [Posing()]
    ensures 8 <= k && |kept| + k < |file| && !P.Clean(kept, 24, file[|kept|..])
    ensures ShowsAnother(P.StagingHeader(24) + kept[T.HEADER_LEN..] + file[|kept|..][..k], 24, 24 + k)
  {
    VerbatimIsTrusted();
    EmptyIsFinished();
    EmptyIsSelected();
    fmt, kept := Verbatim(), EmptyArchive();
    file, k, c, f := AppendPosing(fmt, kept, NoContents(), NoDocuments());
  }

  lemma EmptyIsSelected()
    ensures P.Selected(EmptyArchive()) == Some(24) && P.TrailerAt(EmptyArchive(), 24)
    ensures Verbatim().ser.putHtml(HtmlOf(Posing())) == PutHtml(HtmlOf(Posing()))
  {
    EmptyIsFinished();
    P.SelectedByReaders(EmptyArchive());
  }

  method AppendPosing(fmt: Format, kept: Bytes, ghost c0: Contents, ghost f0: Footer)
      returns (file: Bytes, k: nat, ghost c: Contents, ghost f: Footer)
    requires Trusted(fmt) && |kept| == 128 && FinishedAs(fmt, kept, c0, f0) && c0.docs == [] && f0.dict == None
    requires T.ReadFromFile(kept) == Ok((f0.trailer, 24)) && P.TrailerAt(kept, 24)
    requires fmt.ser.putHtml(HtmlOf(Posing())) == PutHtml(HtmlOf(Posing()))
    ensures kept <= file && FinishedAs(fmt, file, c, f) && c.stored == [Posing()]
    ensures 8 <= k && |kept| + k < |file| && !P.Clean(kept, 24, file[|kept|..])
    ensures ShowsAnother(P.StagingHeader(24) + kept[T.HEADER_LEN..] + file[|kept|..][..k], 24, 24 + k)
  {
    var off;
    file, off, c, f := AppendOne(fmt, kept, Posing(), c0, f0);
    k := off + 81;
    CutBehindBody(kept, file, off, c.docs[0].len);
  }

  /** Cut right behind the document's body. */
  lemma CutBehindBody(kept: Bytes, file: Bytes, off: nat, len: nat)
    requires |kept| == 128 <= off && kept <= file && P.TrailerAt(kept, 24)
    requires RegionIs(file, off, len, PutHtml(HtmlOf(Posing()))) && off + len + T.TRAILER_LEN <= |file|
    ensures off + 209 < |file| && !P.Clean(kept, 24, file[128..])
    ensures ShowsAnother(P.StagingHeader(24) + kept[T.HEADER_LEN..] + file[128..][..off + 81], 24, off + 105)
  {
    BodyInFile(file, off, len, HtmlOf(Posing()));
    PosingPoses();
    PosesAt(file, off + 105, Posing().body);
    FalseCut(kept, file, off + 81);
  }

  /** The header stages the trailer at `off`, which is there, but readers find another. */
  predicate ShowsAnother(file: Bytes, off: nat, other: nat) {
    && T.ValidHeader(file) && P.StagedIn(file, off) && P.TrailerAt(file, off)
    && other != off && P.Selected(file) == Some(other)
  }

  /** The bytes read as a trailer wherever they stand behind the header. */
  ghost predicate Poses(t: Bytes) {
    |t| == T.TRAILER_LEN && forall at: nat :: T.HEADER_LEN <= at ==> T.DecodeTrailer(t, at).Ok?
  }

  lemma PosingPoses()
    ensures Poses(Posing().body)
  {
    forall at: nat | T.HEADER_LEN <= at ensures T.DecodeTrailer(T.ToBytes(P.EmptyTrailer()), at).Ok? {
      P.EmptyTrailerReads(at);
    }
  }

  lemma PosesAt(file: Bytes, at: nat, t: Bytes)
    requires T.HEADER_LEN <= at && Poses(t) && at + |t| <= |file| && file[at..at + |t|] == t
    ensures P.TrailerAt(file[..at + |t|], at)
  {
    SliceOfPrefix(file, at, at + |t|);
  }

  lemma SliceOfPrefix(b: Bytes, from: nat, to: nat)
    requires from <= to <= |b|
    ensures b[..to][from..to] == b[from..to]
  {
  }

  /** The body stands behind its length in ones and a zero. */
  lemma BodyInFile(file: Bytes, off: nat, len: nat, h: Html)
    requires RegionIs(file, off, len, PutHtml(h))
    ensures var n := |h.body|; 2 * n + 1 <= len && file[off + n + 1..off + 2 * n + 1] == h.body
  {
    var n, rest := |h.body|, W.Put([W.OfHtml(h.(body := []))]);
    InTheMiddle(W.Ones(n) + [0], h.body, rest);
    SliceOfSlice(file, off, len, n + 1, 2 * n + 1);
  }

  lemma SliceOfSlice(b: Bytes, off: nat, len: nat, from: nat, to: nat)
    requires off + len <= |b| && from <= to <= len
    ensures b[off..off + len][from..to] == b[off + from..off + to]
  {
    var s, t := b[off..off + len][from..to], b[off + from..off + to];
    forall k | 0 <= k < |s| ensures s[k] == t[k] {
      assert s[k] == b[off..off + len][from + k];
    }
  }

  lemma InTheMiddle(before: Bytes, body: Bytes, after: Bytes)
    ensures (before + (body + after))[|before|..|before| + |body|] == body
  {
  }

  lemma FalseCut(kept: Bytes, file: Bytes, k: nat)
    requires |kept| == 128 && kept <= file && 128 + k < |file| && 104 <= k
    requires P.TrailerAt(kept, 24) && P.TrailerAt(file[..128 + k], 24 + k)
    ensures !P.Clean(kept, 24, file[128..])
    ensures var cut := P.StagingHeader(24) + kept[T.HEADER_LEN..] + file[128..][..k];
            ShowsAnother(cut, 24, 24 + k)
  {
    var stream := file[128..];
    var plain, cut := kept[..128] + stream[..k], P.StagingHeader(24) + kept[T.HEADER_LEN..] + stream[..k];
    assert plain == file[..128 + k];
    P.TrailerFrame(kept, plain, 24);
    StagedCut(plain, cut, k);
  }

  /** Staging changes header bytes only. */
  lemma StagedCut(plain: Bytes, cut: Bytes, k: nat)
    requires |plain| == 128 + k == |cut| && plain[T.HEADER_LEN..] == cut[T.HEADER_LEN..]
    requires cut[..T.HEADER_LEN] == P.StagingHeader(24) && P.TrailerAt(plain, 24) && P.TrailerAt(plain, 24 + k)
    ensures k > 0 ==> ShowsAnother(cut, 24, 24 + k)
  {
    assert cut[..T.PENDING_AT] == cut[..T.HEADER_LEN][..T.PENDING_AT];
    assert cut[T.PENDING_AT..T.HEADER_LEN] == cut[..T.HEADER_LEN][T.PENDING_AT..];
    forall i | T.HEADER_LEN <= i < 128 + k ensures cut[i] == plain[i] {
      assert cut[T.HEADER_LEN..][i - T.HEADER_LEN] == plain[T.HEADER_LEN..][i - T.HEADER_LEN];
    }
    P.TrailersKept(plain, cut, 24);
  }
}
